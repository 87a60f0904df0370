/** The schemas that inference generates: the field descriptors of a builder, and the registry
    of ad-hoc messages. */
module Schemas {
  import opened Wrappers
  import opened Configuration
  import opened Dependencies
  import opened Resolution

  const ADHOC := "aaos.sdv.telemetry.adhoc"
  const ANY := "google.protobuf.Any"
  const ANY_FILE := "google/protobuf/any.proto"
  const WELL_KNOWN := "google.protobuf."

  function Qualified(name: string): string { ADHOC + "." + name }

  datatype Descriptor = Descriptor(name: string, fields: seq<Field>)
  datatype Message = Message(fields: seq<Field>, file: string)

  /** The supplied types: messages with their fields and files, and the files of enums. */
  datatype TypeResolver = TypeResolver(messages: map<string, Message>, enums: map<string, string>)

  datatype InferError =
    | Unresolved(error: ResolveError)
    | EnumNotFound(name: string)
    | VectorOfRepeated(field: string)
    | MessageTypeNotFound(name: string)

  /** What generating a schema looks at. */
  datatype Snapshot = Snapshot(config: MetricsConfig, resolver: TypeResolver, dataTypes: map<string, string>,
                               types: map<Entity, string>, adhoc: seq<Descriptor>, referenced: set<string>)

  function SourceNamed(sources: seq<Source>, name: string): (r: Option<Source>)
    ensures r.Some? ==> r.value in sources && r.value.name == name
  {
    if sources == [] then None
    else if Last(sources).name == name then Some(Last(sources))
    else SourceNamed(Front(sources), name)
  }

  function TypeOf(types: map<Entity, string>, e: Entity): string {
    if e in types then types[e] else ""
  }

  function GetSourceMessageName(s: Snapshot, name: string): Result<string, ResolveError> {
    var source := SourceNamed(s.config.sources, name);
    if source.None? then Err(UnknownSource(name))
    else match source.value
      case DataSource(_, id) => Ok(if id in s.dataTypes then s.dataTypes[id] else id)
      case Aggregator(_, _, _) =>
        if TypeOf(s.types, OnSource(name)) == "" then Err(NotInferred(OnSource(name)))
              else Ok(TypeOf(s.types, OnSource(name)))
      case OtherSource(_) => Err(UnknownSourceKind(name))
  }

  /** The ad-hoc message with the qualified name `name`. */
  function FindAdhocMessage(adhoc: seq<Descriptor>, name: string): (r: Option<Descriptor>)
    ensures r.Some? ==> r.value in adhoc && Qualified(r.value.name) == name
    ensures r.None? ==> forall d | d in adhoc :: Qualified(d.name) != name
  {
    if adhoc == [] then None
    else if Qualified(adhoc[0].name) == name then Some(adhoc[0])
    else FindAdhocMessage(adhoc[1..], name)
  }

  function GetDescriptorFields(s: Snapshot, name: string): Option<seq<Field>> {
    var d := FindAdhocMessage(s.adhoc, name);
    if d.Some? then Some(d.value.fields)
    else if name in s.resolver.messages then Some(s.resolver.messages[name].fields)
    else None
  }

  function EnvOf(s: Snapshot): Env {
    Env((name: string) => GetSourceMessageName(s, name), (i: nat) => TypeOf(s.types, OnBuilder(i)),
        (m: string) => GetDescriptorFields(s, m))
  }

  predicate IsTypeInOutput(adhoc: seq<Descriptor>, referenced: set<string>, name: string) {
    WELL_KNOWN <= name || FindAdhocMessage(adhoc, name).Some? || name in referenced
  }

  // ------------------------------------------------------------------------
  // Fields

  datatype Tracked = Tracked(ty: TypeDesc, files: seq<string>, enums: set<string>)

  function FileOf(file: string): seq<string> { if file == "" then [] else [file] }

  /** A message that is not in the output becomes `Any`; the files of the types in use are noted. */
  function Normalize(s: Snapshot, ty: TypeDesc): Result<Tracked, InferError> {
    if ty.kind.MessageKind? then
      if !IsTypeInOutput(s.adhoc, s.referenced, ty.typeName) then Ok(Tracked(ty.(typeName := ANY), [ANY_FILE], {}))
      else if ty.typeName in s.resolver.messages then Ok(Tracked(ty, FileOf(s.resolver.messages[ty.typeName].file), {}))
      else Ok(Tracked(ty, [], {}))
    else if ty.kind.EnumKind? then
      if ty.typeName !in s.resolver.enums then Err(EnumNotFound(ty.typeName))
      else Ok(Tracked(ty, FileOf(s.resolver.enums[ty.typeName]), {ty.typeName}))
    else Ok(Tracked(ty, [], {}))
  }

  /** The normalized type of the expression assigned to a field. */
  function AssignedType(s: Snapshot, index: nat): Result<Tracked, InferError>
    requires Resolvable(s.config.nodes) && index < |s.config.nodes|
  {
    match Resolve(EnvOf(s), s.config.nodes, index)
    case Err(e) => Err(Unresolved(e))
    case Ok(ty) => Normalize(s, ty)
  }

  /** What a field contributes: its descriptor, and the types to be noted even if that fails. */
  datatype FieldOutcome = FieldOutcome(field: Result<Field, InferError>, files: seq<string>, enums: set<string>)

  /** The type of the field is that of its expression; a count, an average and a deviation have
      types of their own. */
  predicate ReadsType(fa: FieldAssign) { !fa.aggregation.Count? && !fa.aggregation.Avg? && !fa.aggregation.StdDev? }

  /** The expression is there, if the type is read from it. */
  predicate IndexOk(nodes: seq<RawNode>, fa: FieldAssign) { ReadsType(fa) ==> fa.index < |nodes| }

  function FieldOf(s: Snapshot, fa: FieldAssign, pos: nat): FieldOutcome
    requires Resolvable(s.config.nodes) && IndexOk(s.config.nodes, fa)
  {
    if fa.aggregation.Count? then FieldOutcome(Ok(Field(fa.fieldName, pos, Scalar(Int32Kind))), [], {})
    else if fa.aggregation.Avg? || fa.aggregation.StdDev?
        then FieldOutcome(Ok(Field(fa.fieldName, pos, Scalar(DoubleKind))), [], {})
    else match AssignedType(s, fa.index)
      case Err(e) => FieldOutcome(Err(e), [], {})
      case Ok(t) =>
        if !fa.aggregation.Vector? then FieldOutcome(Ok(Field(fa.fieldName, pos, t.ty)), t.files, t.enums)
        else if t.ty.repeated then FieldOutcome(Err(VectorOfRepeated(fa.fieldName)), t.files, t.enums)
        else FieldOutcome(Ok(Field(fa.fieldName, pos, t.ty.(repeated := true))), t.files, t.enums)
  }

  /** The types a field names are ad hoc, well known or referenced, and their files are noted. */
  predicate FieldTracked(resolver: TypeResolver, adhoc: seq<Descriptor>, referenced: set<string>, files: seq<string>,
                         enums: set<string>, ty: TypeDesc) {
    && (ty.kind.MessageKind? ==>
          || (ty.typeName == ANY && ANY_FILE in files)
          || (&& IsTypeInOutput(adhoc, referenced, ty.typeName)
              && (ty.typeName in resolver.messages && resolver.messages[ty.typeName].file != "" ==>
                    resolver.messages[ty.typeName].file in files)))
    && (ty.kind.EnumKind? ==>
          && ty.typeName in resolver.enums && ty.typeName in enums
          && (resolver.enums[ty.typeName] != "" ==> resolver.enums[ty.typeName] in files))
  }

  lemma OutcomeTracked(s: Snapshot, fa: FieldAssign, pos: nat, files: seq<string>, enums: set<string>)
    requires Resolvable(s.config.nodes) && IndexOk(s.config.nodes, fa)
    requires forall f | f in FieldOf(s, fa, pos).files :: f in files
    requires FieldOf(s, fa, pos).enums <= enums
    ensures FieldOf(s, fa, pos).field.Ok? ==>
            FieldTracked(s.resolver, s.adhoc, s.referenced, files, enums, FieldOf(s, fa, pos).field.value.ty)
  {
  }

  /** A noted file is that of `Any`, of a supplied message in the output, or of a noted enum. */
  ghost predicate FileOk(resolver: TypeResolver, adhoc: seq<Descriptor>, referenced: set<string>, enums: set<string>,
                         file: string) {
    || file == ANY_FILE
    || (exists n | n in resolver.messages :: resolver.messages[n].file == file && IsTypeInOutput(adhoc, referenced, n))
    || (exists n | n in enums :: n in resolver.enums && resolver.enums[n] == file)
  }

  ghost predicate FilesOk(resolver: TypeResolver, adhoc: seq<Descriptor>, referenced: set<string>, enums: set<string>,
                          files: seq<string>) {
    enums <= resolver.enums.Keys && forall f | f in files :: f != "" && FileOk(resolver, adhoc, referenced, enums, f)
  }

  lemma OutcomeFilesOk(s: Snapshot, fa: FieldAssign, pos: nat)
    requires Resolvable(s.config.nodes) && IndexOk(s.config.nodes, fa)
    ensures FilesOk(s.resolver, s.adhoc, s.referenced, FieldOf(s, fa, pos).enums, FieldOf(s, fa, pos).files)
  {
  }

  lemma FilesGrow(resolver: TypeResolver, adhoc: seq<Descriptor>, more: seq<Descriptor>, referenced: set<string>,
                  referenced1: set<string>,
                  enums: set<string>, enums1: set<string>, files: seq<string>)
    requires FilesOk(resolver, adhoc, referenced, enums, files)
    requires (forall d | d in adhoc :: d in more) && referenced <= referenced1 && enums <= enums1 <= resolver.enums.Keys
    ensures FilesOk(resolver, more, referenced1, enums1, files)
  {
    forall f | f in files ensures FileOk(resolver, more, referenced1, enums1, f) {
      if n :| n in resolver.messages && resolver.messages[n].file == f && IsTypeInOutput(adhoc, referenced, n) {
        OutputGrows(adhoc, more, referenced, referenced1, n);
      }
    }
  }

  lemma {:induction false} OutputGrows(adhoc: seq<Descriptor>, more: seq<Descriptor>, referenced: set<string>,
                                       referenced1: set<string>, name: string)
    requires (forall d | d in adhoc :: d in more) && referenced <= referenced1
             && IsTypeInOutput(adhoc, referenced, name)
    ensures IsTypeInOutput(more, referenced1, name)
  {
  }

  lemma TrackedGrows(resolver: TypeResolver, adhoc: seq<Descriptor>, more: seq<Descriptor>, referenced: set<string>,
                     referenced1: set<string>,
                     files: seq<string>, files1: seq<string>, enums: set<string>, enums1: set<string>, ty: TypeDesc)
    requires FieldTracked(resolver, adhoc, referenced, files, enums, ty)
    requires (forall d | d in adhoc :: d in more) && referenced <= referenced1 && (forall f | f in files :: f in files1)
             && enums <= enums1
    ensures FieldTracked(resolver, more, referenced1, files1, enums1, ty)
  {
    if IsTypeInOutput(adhoc, referenced, ty.typeName) {
      OutputGrows(adhoc, more, referenced, referenced1, ty.typeName);
    }
  }

  // ------------------------------------------------------------------------
  // The registry

  /** The fields are the assignments, in order, numbered from 1. */
  predicate Describes(fields: seq<Field>, assigns: seq<FieldAssign>) {
    |fields| == |assigns| && forall i | 0 <= i < |fields| ::
          fields[i].name == assigns[i].fieldName && fields[i].number == i + 1
  }

  /** No name twice, and no two messages that differ by name alone. */
  ghost predicate Registry(adhoc: seq<Descriptor>) {
    forall i, j | 0 <= i < j < |adhoc| :: adhoc[i].name != adhoc[j].name && adhoc[i].fields != adhoc[j].fields
  }

  function FindIdentical(adhoc: seq<Descriptor>, fields: seq<Field>): (r: Option<Descriptor>)
    ensures r.Some? ==> r.value in adhoc && r.value.fields == fields
    ensures r.None? ==> forall d | d in adhoc :: d.fields != fields
  {
    if adhoc == [] then None
    else if adhoc[0].fields == fields then Some(adhoc[0])
    else FindIdentical(adhoc[1..], fields)
  }

  lemma RegistrySnoc(adhoc: seq<Descriptor>, d: Descriptor)
    requires Registry(adhoc) && (forall x | x in adhoc :: x.name != d.name && x.fields != d.fields)
    ensures Registry(adhoc + [d])
  {
  }

  lemma QualifiedInjective(a: string, b: string)
    requires Qualified(a) == Qualified(b)
    ensures a == b
  {
    assert Qualified(a)[|ADHOC| + 1..] == a && Qualified(b)[|ADHOC| + 1..] == b;
  }

  lemma QualifiedNotWellKnown(name: string)
    ensures !(WELL_KNOWN <= Qualified(name))
  {
    assert Qualified(name)[0] == 'a' && WELL_KNOWN[0] == 'g';
  }
}
