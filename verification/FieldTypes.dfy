/** The types that a generated schema gives its fields, and why later steps of inference cannot
    change what they should have been. */
module FieldTypes {
  import opened Wrappers
  import opened Operators
  import opened Configuration
  import opened Dependencies
  import opened Resolution
  import opened Schemas
  import opened Inference

  /** A message that was outside the output at `seen` is written as `Any`. */
  function OutputType(seen: Snapshot, ty: TypeDesc): TypeDesc {
    if ty.kind.MessageKind? && !IsTypeInOutput(seen.adhoc, seen.referenced, ty.typeName) then ty.(typeName := ANY)
          else ty
  }

  /** The type of a field: that of its expression in the state `now`, but for messages that were
      outside the output at `seen`. */
  function InferredType(now: Snapshot, seen: Snapshot, fa: FieldAssign): Option<TypeDesc>
    requires Resolvable(now.config.nodes) && IndexOk(now.config.nodes, fa)
  {
    if fa.aggregation.Count? then Some(Scalar(Int32Kind))
    else if !ReadsType(fa) then Some(Scalar(DoubleKind))
    else match Resolve(EnvOf(now), now.config.nodes, fa.index)
      case Err(_) => None
      case Ok(ty) =>
        if !fa.aggregation.Vector? then Some(OutputType(seen, ty))
        else if ty.repeated then None
        else Some(OutputType(seen, ty).(repeated := true))
  }

  /** The fields have the inferred types, one by one. */
  predicate HaveTypes(now: Snapshot, seen: Snapshot, assigns: seq<FieldAssign>, fields: seq<Field>)
    requires Resolvable(now.config.nodes) && InRange(now.config, assigns)
  {
    |fields| == |assigns| && forall k | 0 <= k < |fields| :: InferredType(now, seen, assigns[k]) == Some(fields[k].ty)
  }

  lemma FieldHasType(s: Snapshot, fa: FieldAssign, pos: nat)
    requires Resolvable(s.config.nodes) && IndexOk(s.config.nodes, fa) && FieldOf(s, fa, pos).field.Ok?
    ensures InferredType(s, s, fa) == Some(FieldOf(s, fa, pos).field.value.ty)
  {
  }

  lemma {:induction false} GoodFieldsHaveTypes(s: Snapshot, assigns: seq<FieldAssign>)
    requires Resolvable(s.config.nodes) && InRange(s.config, assigns) && FieldErrors(s, assigns) == []
    ensures HaveTypes(s, s, assigns, GoodFields(s, assigns))
  {
    if assigns != [] {
      var front, last := Front(assigns), Last(assigns);
      GoodFieldsHaveTypes(s, front);
      FieldHasType(s, last, |assigns|);
      HaveTypesOneMore(s, s, front, GoodFields(s, front), last, FieldOf(s, last, |assigns|).field.value);
      assert assigns == front + [last];
    }
  }

  lemma HaveTypesOneMore(now: Snapshot, seen: Snapshot, assigns: seq<FieldAssign>, fields: seq<Field>, fa: FieldAssign,
                         f: Field)
    requires Resolvable(now.config.nodes) && InRange(now.config, assigns) && IndexOk(now.config.nodes, fa)
    requires HaveTypes(now, seen, assigns, fields) && InferredType(now, seen, fa) == Some(f.ty)
    ensures InRange(now.config, assigns + [fa]) && HaveTypes(now, seen, assigns + [fa], fields + [f])
  {
  }

  // ------------------------------------------------------------------------
  // Later states

  /** From `s` to `t`, builders only gained types and the registry only grew. */
  ghost predicate Grows(s: Snapshot, t: Snapshot) {
    && t.config == s.config && t.resolver == s.resolver && t.dataTypes == s.dataTypes
    && (forall d | TypeOf(s.types, d) != "" :: TypeOf(t.types, d) == TypeOf(s.types, d))
    && s.adhoc <= t.adhoc && s.referenced <= t.referenced
  }

  lemma GrowsOn(s: Snapshot, t: Snapshot, u: Snapshot)
    requires Grows(s, t) && Grows(t, u)
    ensures Grows(s, u)
  {
  }

  /** Where `e` answers, `f` gives the same answer. */
  ghost predicate Extends(e: Env, f: Env) {
    && (forall s | e.sourceType(s).Ok? :: f.sourceType(s) == e.sourceType(s))
    && (forall i | e.builderType(i) != "" :: f.builderType(i) == e.builderType(i))
    && (forall m | e.fieldsOf(m).Some? :: f.fieldsOf(m) == e.fieldsOf(m))
  }

  lemma {:induction false} FoundAgain(adhoc: seq<Descriptor>, more: seq<Descriptor>, name: string)
    requires adhoc <= more && FindAdhocMessage(adhoc, name).Some?
    ensures FindAdhocMessage(more, name) == FindAdhocMessage(adhoc, name)
  {
    if Qualified(adhoc[0].name) != name {
      FoundAgain(adhoc[1..], more[1..], name);
    }
  }

  lemma SuppliedIsNotAdhoc(resolver: TypeResolver, adhoc: seq<Descriptor>, m: string)
    requires (forall n :: Qualified(n) !in resolver.messages) && m in resolver.messages
    ensures FindAdhocMessage(adhoc, m).None?
  {
    var found := FindAdhocMessage(adhoc, m);
    assert found.Some? ==> Qualified(found.value.name) == m;
  }

  lemma EnvExtends(s: Snapshot, t: Snapshot)
    requires Grows(s, t) && forall n :: Qualified(n) !in s.resolver.messages
    ensures Extends(EnvOf(s), EnvOf(t))
  {
    forall m | GetDescriptorFields(s, m).Some? ensures GetDescriptorFields(t, m) == GetDescriptorFields(s, m) {
      if FindAdhocMessage(s.adhoc, m).Some? {
        FoundAgain(s.adhoc, t.adhoc, m);
      } else {
        SuppliedIsNotAdhoc(s.resolver, t.adhoc, m);
      }
    }
  }

  lemma {:induction false} PathExtends(e: Env, f: Env, msg: string, names: seq<string>)
    requires Extends(e, f) && FieldPath(e, msg, names).Ok?
    ensures FieldPath(f, msg, names) == FieldPath(e, msg, names)
    decreases |names|
  {
    if |names| > 1 {
      PathExtends(e, f, FieldIn(e, msg, names[0]).value.ty.typeName, names[1..]);
    }
  }

  /** A type, once found, is found again in every later state. */
  lemma {:induction false} ResolveExtends(e: Env, f: Env, nodes: seq<RawNode>, i: nat)
    requires Resolvable(nodes) && i < |nodes| && Extends(e, f) && Resolve(e, nodes, i).Ok?
    ensures Resolve(f, nodes, i) == Resolve(e, nodes, i)
    decreases i
  {
    assert OperandsBefore(nodes[i], i);
    match nodes[i]
    case RawField(source, expr, fields) =>
      if expr.None? {
        PathExtends(e, f, e.sourceType(source).value, fields);
      } else {
        ResolveExtends(e, f, nodes, expr.value);
        PathExtends(e, f, Resolve(e, nodes, expr.value).value.typeName, fields);
      }
    case RawCombination(op, left, right) =>
      if Resolve(e, nodes, left.value).Ok? {
        ResolveExtends(e, f, nodes, left.value);
      }
      if !IsUnaryNodeOperator(op) && Resolve(e, nodes, right.value).Ok? {
        ResolveExtends(e, f, nodes, right.value);
      }
    case _ =>
  }

  /** The types of the fields, once inferred, are those that any later state would infer. */
  lemma {:induction false} TypesKept(s: Snapshot, t: Snapshot, seen: Snapshot, assigns: seq<FieldAssign>,
                                     fields: seq<Field>)
    requires Resolvable(s.config.nodes) && InRange(s.config, assigns) && HaveTypes(s, seen, assigns, fields)
    requires Grows(s, t) && forall n :: Qualified(n) !in s.resolver.messages
    ensures HaveTypes(t, seen, assigns, fields)
  {
    EnvExtends(s, t);
    forall k | 0 <= k < |fields| ensures InferredType(t, seen, assigns[k]) == Some(fields[k].ty) {
      assert InferredType(s, seen, assigns[k]) == Some(fields[k].ty);
      if ReadsType(assigns[k]) {
        ResolveExtends(EnvOf(s), EnvOf(t), s.config.nodes, assigns[k].index);
      }
    }
  }

  // ------------------------------------------------------------------------
  // The schemas of a run

  /** The registered message of `e` has its assignments for fields, with their inferred types. */
  ghost predicate SchemaTyped(now: Snapshot, seen: Snapshot, e: Entity)
    requires WellIndexed(now.config) && IsEntity(now.config, e)
  {
    exists d | d in now.adhoc ::
      && TypeOf(now.types, e) == Qualified(d.name)
      && Describes(d.fields, AssignsOf(now.config, e)) && HaveTypes(now, seen, AssignsOf(now.config, e), d.fields)
  }

  lemma {:induction false} SchemaKept(s: Snapshot, t: Snapshot, seen: Snapshot, e: Entity)
    requires WellIndexed(s.config) && IsEntity(s.config, e) && SchemaTyped(s, seen, e) && TypeOf(s.types, e) != ""
    requires Grows(s, t) && forall n :: Qualified(n) !in s.resolver.messages
    ensures SchemaTyped(t, seen, e)
  {
    var d :| d in s.adhoc && TypeOf(s.types, e) == Qualified(d.name)
      && Describes(d.fields, AssignsOf(s.config, e)) && HaveTypes(s, seen, AssignsOf(s.config, e), d.fields);
    TypesKept(s, t, seen, AssignsOf(s.config, e), d.fields);
    assert d in t.adhoc;
  }
}
