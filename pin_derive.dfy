/** `#[derive(PinField)]`: per field, the wrapper a projection from
    `Pin<&mut Self>` yields; then one guard item that makes the struct `Unpin`
    exactly when its pinned fields are, and that refuses a struct with `Drop`. */
module PinDerive {
  import opened Wrappers
  import opened Types
  import opened Syntax
  import Decimal
  import FieldDerive

  /** `Pin<&'a mut T>` for a pinned field, `&'a mut T` for any other. */
  datatype Wrapper = PinnedMut | PlainMut

  /** One field `__field<i>: T` of the shadow record. */
  datatype ShadowField = ShadowField(name: string, ty: Ty)

  /** `struct __UnpinHelper<'__dummy_lifetime, generics> where ... { __dummy_field: dummy, fields }`. */
  datatype UnpinHelper = UnpinHelper(
    generics: seq<GenericParam>,
    whereClause: Option<WhereClause>,
    dummy: Ty,
    fields: seq<ShadowField>)

  /** `impl<'__dummy_lifetime, generics> Unpin for target where predicates, helperBound: Unpin {}`. */
  datatype UnpinImpl = UnpinImpl(
    generics: seq<GenericParam>,
    target: SelfTy,
    predicates: seq<WherePredicate>,
    helperBound: SelfTy)

  /** `impl<generics> MustNotImplDrop for target where ... {}`, next to the blanket
      `impl<T: Drop> MustNotImplDrop for T {}`. */
  datatype DropGuardImpl = DropGuardImpl(
    generics: seq<GenericParam>,
    target: SelfTy,
    whereClause: Option<WhereClause>)

  datatype Item =
    | PinFieldImpl(generics: seq<GenericParam>, base: SelfTy, key: bv64,
                   whereClause: Option<WhereClause>, wrapper: Wrapper)
    | Guard(helper: UnpinHelper, unpinImpl: UnpinImpl, dropGuard: DropGuardImpl)

  const HelperName := "__UnpinHelper"
  const DummyLifetime := "'__dummy_lifetime"
  /** `PhantomData<&'__dummy_lifetime ()>`. */
  const DummyFieldType := PhantomData(Ref(false, Scalar("()")))

  /** `Path::is_ident`: a path of exactly one segment, without a leading `::` or
      generic arguments, whose identifier is `name`. */
  predicate IsIdent(p: Path, name: string)
  {
    && !p.leadingColon
    && |p.segments| == 1
    && !p.segments[0].hasArguments
    && p.segments[0].ident == name
  }

  /** Whether some attribute in the list is `#[pin]`, scanning in order. */
  predicate AnyPin(attrs: seq<Attribute>)
  {
    if attrs == [] then false else IsIdent(attrs[0].path, "pin") || AnyPin(attrs[1..])
  }

  /** The scan finds a `#[pin]` exactly when there is one. */
  lemma {:induction false} AnyPinIff(attrs: seq<Attribute>)
    ensures AnyPin(attrs) <==> exists k :: 0 <= k < |attrs| && IsIdent(attrs[k].path, "pin")
  {
    if attrs != [] {
      AnyPinIff(attrs[1..]);
      if !IsIdent(attrs[0].path, "pin") && exists k :: 0 <= k < |attrs| && IsIdent(attrs[k].path, "pin") {
        var k :| 0 <= k < |attrs| && IsIdent(attrs[k].path, "pin");
        assert attrs[1..][k - 1] == attrs[k];
      }
    }
  }

  predicate HasPin(f: Field)
  {
    AnyPin(f.attrs)
  }

  /** `has_pin`: one flag per field, set exactly when the field carries `#[pin]`. */
  function PinFlags(fields: seq<Field>): (flags: seq<bool>)
    ensures |flags| == |fields|
    ensures forall k :: 0 <= k < |fields| ==> (flags[k] <==> HasPin(fields[k]))
    ensures forall k :: 0 <= k < |fields| ==>
      (flags[k] <==> exists a :: 0 <= a < |fields[k].attrs| && IsIdent(fields[k].attrs[a].path, "pin"))
  {
    forall k | 0 <= k < |fields| {
      AnyPinIff(fields[k].attrs);
    }
    seq(|fields|, k requires 0 <= k < |fields| => HasPin(fields[k]))
  }

  function WrapperFor(pinned: bool): Wrapper
  {
    if pinned then PinnedMut else PlainMut
  }

  /** Shadow field `k`: the field's own type if it is pinned, `AlwaysUnpin` of it otherwise. */
  function ShadowFor(fields: seq<Field>, k: nat): ShadowField
    requires k < |fields|
  {
    ShadowField("__field" + Decimal.NatToString(k),
                if HasPin(fields[k]) then fields[k].ty else AlwaysUnpin(fields[k].ty))
  }

  function PinImplFor(input: DeriveInput, hash: NameHash, fields: seq<Field>, k: nat): Item
    requires k < |fields|
  {
    PinFieldImpl(StripDefaults(input.generics.params), SelfOf(input),
                 hash(MemberName(Members(fields)[k])),
                 input.generics.whereClause, WrapperFor(HasPin(fields[k])))
  }

  /** The guard item built from the struct and its shadow fields. */
  function GuardFor(input: DeriveInput, shadows: seq<ShadowField>): Item
  {
    var generics := StripDefaults(input.generics.params);
    var tyGenerics := TyGenerics(generics);
    var whereClause := input.generics.whereClause;
    var predicates := if whereClause.Some? then whereClause.value.predicates else [];
    Guard(
      UnpinHelper([LifetimeParam(DummyLifetime, [])] + generics, whereClause, DummyFieldType, shadows),
      UnpinImpl([LifetimeParam(DummyLifetime, [])] + generics, SelfTy(input.ident, tyGenerics),
                predicates, SelfTy(HelperName, [LifetimeArg(DummyLifetime)] + tyGenerics)),
      DropGuardImpl(generics, SelfTy(input.ident, tyGenerics), whereClause))
  }

  /** What the derive generates: an error for an enum or a union, otherwise one
      `PinField` impl per field followed by exactly one guard item. */
  function Generate(input: DeriveInput, hash: NameHash): (r: Result<seq<Item>, DeriveError>)
    ensures input.data.Enum? ==> r == Err(DeriveError(EnumMessage))
    ensures input.data.Union? ==> r == Err(DeriveError(UnionMessage))
    ensures input.data.Struct? <==> r.Ok?
    ensures r.Ok? ==> |r.value| == |FieldList(input.data.fields)| + 1
    ensures r.Ok? ==> forall k :: 0 <= k < |r.value| ==> (r.value[k].Guard? <==> k == |r.value| - 1)
  {
    match StructFields(input.data)
    case Err(e) => Err(e)
    case Ok(fields) =>
      var impls := seq(|fields|, k requires 0 <= k < |fields| => PinImplFor(input, hash, fields, k));
      var shadows := seq(|fields|, k requires 0 <= k < |fields| => ShadowFor(fields, k));
      Ok(impls + [GuardFor(input, shadows)])
  }

  /** The derive as the source runs it: flag the pinned fields, name the fields,
      strip the defaults, push one impl and one shadow field per field, then push
      the guard. */
  method Derive(input: DeriveInput, hash: NameHash) returns (r: Result<seq<Item>, DeriveError>)
    ensures r == Generate(input, hash)
  {
    var fields: seq<Field>;
    match input.data {
      case Struct(fs) =>
        match fs {
          case Named(named) => fields := named;
          case Unnamed(unnamed) => fields := unnamed;
          case Unit => fields := [];
        }
      case Enum => return Err(DeriveError(EnumMessage));
      case Union => return Err(DeriveError(UnionMessage));
    }
    var hasPin := PinFlags(fields);
    var fieldName := Members(fields);
    var generics := StripDefaults(input.generics.params);
    var tyGenerics := TyGenerics(generics);
    var builder: seq<Item> := [];
    var unpinGuardBuilder: seq<ShadowField> := [];
    for i := 0 to |fieldName|
      invariant |builder| == |unpinGuardBuilder| == i
      invariant forall k :: 0 <= k < i ==> builder[k] == PinImplFor(input, hash, fields, k)
      invariant forall k :: 0 <= k < i ==> unpinGuardBuilder[k] == ShadowFor(fields, k)
    {
      var nameStr := MemberName(fieldName[i]);
      var ty := fields[i].ty;
      var fieldNameHash := hash(nameStr);
      var wrapper := if hasPin[i] then PinnedMut else PlainMut;
      var impl := PinFieldImpl(generics, SelfTy(input.ident, tyGenerics), fieldNameHash, input.generics.whereClause, wrapper);
      builder := builder + [impl];
      var fieldIdx := "__field" + Decimal.NatToString(i);
      if hasPin[i] {
        unpinGuardBuilder := unpinGuardBuilder + [ShadowField(fieldIdx, ty)];
      } else {
        unpinGuardBuilder := unpinGuardBuilder + [ShadowField(fieldIdx, AlwaysUnpin(ty))];
      }
    }
    var whereClauseNonOptional := if input.generics.whereClause.Some? then input.generics.whereClause.value.predicates else [];
    var guard := Guard(
      UnpinHelper([LifetimeParam(DummyLifetime, [])] + generics, input.generics.whereClause,
                  DummyFieldType, unpinGuardBuilder),
      UnpinImpl([LifetimeParam(DummyLifetime, [])] + generics, SelfTy(input.ident, tyGenerics),
                whereClauseNonOptional, SelfTy(HelperName, [LifetimeArg(DummyLifetime)] + tyGenerics)),
      DropGuardImpl(generics, SelfTy(input.ident, tyGenerics), input.generics.whereClause));
    assert guard == GuardFor(input, unpinGuardBuilder);
    GenerateFromParts(input, hash, fields, builder, unpinGuardBuilder);
    builder := builder + [guard];
    r := Ok(builder);
  }

  /** Per-field impls and shadow fields built one at a time make up the whole output. */
  lemma GenerateFromParts(input: DeriveInput, hash: NameHash, fields: seq<Field>, impls: seq<Item>, shadows: seq<ShadowField>)
    requires input.data.Struct? && fields == FieldList(input.data.fields)
    requires |impls| == |fields| && forall k :: 0 <= k < |fields| ==> impls[k] == PinImplFor(input, hash, fields, k)
    requires |shadows| == |fields| && forall k :: 0 <= k < |fields| ==> shadows[k] == ShadowFor(fields, k)
    ensures Generate(input, hash) == Ok(impls + [GuardFor(input, shadows)])
  {
    assert impls == seq(|fields|, k requires 0 <= k < |fields| => PinImplFor(input, hash, fields, k));
    assert shadows == seq(|fields|, k requires 0 <= k < |fields| => ShadowFor(fields, k));
  }

  /** The guard item of a successful derivation; it is the same whatever the hash. */
  function GuardOf(input: DeriveInput): (g: Item)
    requires input.data.Struct?
    ensures g.Guard?
    ensures forall hash :: Generate(input, hash).value[|FieldList(input.data.fields)|] == g
  {
    var fields := FieldList(input.data.fields);
    GuardFor(input, seq(|fields|, k requires 0 <= k < |fields| => ShadowFor(fields, k)))
  }

  /** Projection wrapper and key of field `k`: `Pin<&mut _>` exactly when the field
      carries `#[pin]`, `&mut _` otherwise, under the key the `Field` derive gives
      the same field, for the same struct, parameters and where clause. */
  lemma PinFieldImplFor(input: DeriveInput, hash: NameHash, k: nat)
    requires input.data.Struct?
    requires k < |FieldList(input.data.fields)|
    ensures var item := Generate(input, hash).value[k];
      var fieldImpl := FieldDerive.Generate(input, hash).value[k];
      var f := FieldList(input.data.fields)[k];
      && item.PinFieldImpl?
      && (item.wrapper == PinnedMut <==> exists a :: 0 <= a < |f.attrs| && IsIdent(f.attrs[a].path, "pin"))
      && (item.wrapper == PlainMut <==> !HasPin(f))
      && item.key == fieldImpl.key == hash(fieldImpl.name)
      && item.base == fieldImpl.base && item.generics == fieldImpl.generics
      && item.whereClause == fieldImpl.whereClause
  {
    AnyPinIff(FieldList(input.data.fields)[k].attrs);
  }

  /** The shadow record has one field per original field, in order, besides the
      phantom field: field `k` keeps the real type if it is pinned and is
      `AlwaysUnpin` of it otherwise. */
  lemma ShadowRecordShape(input: DeriveInput, k: nat)
    requires input.data.Struct?
    requires k < |FieldList(input.data.fields)|
    ensures var h := GuardOf(input).helper;
      var f := FieldList(input.data.fields)[k];
      && |h.fields| == |FieldList(input.data.fields)|
      && h.dummy == DummyFieldType
      && h.fields[k].name == "__field" + Decimal.NatToString(k)
      && (HasPin(f) ==> h.fields[k].ty == f.ty)
      && (!HasPin(f) ==> h.fields[k].ty == AlwaysUnpin(f.ty))
  {
  }

  /** The shadow field names are pairwise distinct. */
  lemma ShadowNamesDistinct(input: DeriveInput, j: nat, k: nat)
    requires input.data.Struct?
    requires j < k < |FieldList(input.data.fields)|
    ensures GuardOf(input).helper.fields[j].name != GuardOf(input).helper.fields[k].name
  {
    var nj, nk := Decimal.NatToString(j), Decimal.NatToString(k);
    if "__field" + nj == "__field" + nk {
      assert nj == ("__field" + nj)[7..];
      Decimal.NatToStringInjective(j, k);
    }
  }

  /** The helper record is generic over `'__dummy_lifetime` and the struct's
      parameters, under the struct's where clause; the `Unpin` impl is for the
      struct itself, over the same parameters, and its bound names the helper
      applied to exactly those parameters; the drop guard is for the struct, over
      its own parameters and where clause. */
  lemma UnpinImplBoundsHelper(input: DeriveInput)
    requires input.data.Struct?
    ensures var g := GuardOf(input);
      && g.helper.generics == [LifetimeParam(DummyLifetime, [])] + StripDefaults(input.generics.params)
      && g.helper.whereClause == input.generics.whereClause
      && g.unpinImpl.target == SelfOf(input)
      && g.unpinImpl.generics == g.helper.generics
      && g.unpinImpl.helperBound == SelfTy(HelperName, TyGenerics(g.helper.generics))
      && (input.generics.whereClause.Some? ==>
            g.unpinImpl.predicates == input.generics.whereClause.value.predicates)
      && (input.generics.whereClause.None? ==> g.unpinImpl.predicates == [])
      && g.dropGuard == DropGuardImpl(StripDefaults(input.generics.params), SelfOf(input),
                                      input.generics.whereClause)
  {
    var g := GuardOf(input);
    assert TyGenerics(g.helper.generics)
      == [LifetimeArg(DummyLifetime)] + TyGenerics(StripDefaults(input.generics.params));
  }

  /** The helper record is `Unpin` exactly when all of its field types are, by the
      auto-trait rule, since nothing implements `Unpin` for it explicitly. */
  predicate HelperIsUnpin(h: UnpinHelper, env: UnpinEnv)
  {
    IsUnpin(h.dummy, env) && forall k :: 0 <= k < |h.fields| ==> IsUnpin(h.fields[k].ty, env)
  }

  /** The struct's `Unpin` status under the generated impl: the emitted impl
      applies when it is for this struct and its bound, the helper record applied
      to the impl's own parameters, is `Unpin`. An enum or a union gets no impl. */
  predicate DerivedUnpin(input: DeriveInput, env: UnpinEnv)
  {
    && input.data.Struct?
    && var g := GuardOf(input);
    && g.unpinImpl.target == SelfOf(input)
    && g.unpinImpl.helperBound == SelfTy(HelperName, TyGenerics(g.unpinImpl.generics))
    && g.unpinImpl.generics == g.helper.generics
    && HelperIsUnpin(g.helper, env)
  }

  /** An independent reading of the rule: walk the fields and conjoin `T: Unpin`
      for every pinned field's type, skipping the others. */
  predicate PinnedFieldsUnpin(fields: seq<Field>, env: UnpinEnv)
  {
    if fields == [] then true
    else (HasPin(fields[0]) ==> IsUnpin(fields[0].ty, env)) && PinnedFieldsUnpin(fields[1..], env)
  }

  lemma {:induction false} PinnedFieldsUnpinIff(fields: seq<Field>, env: UnpinEnv)
    ensures PinnedFieldsUnpin(fields, env)
      <==> forall k :: 0 <= k < |fields| && HasPin(fields[k]) ==> IsUnpin(fields[k].ty, env)
  {
    if fields != [] {
      PinnedFieldsUnpinIff(fields[1..], env);
      assert forall k :: 1 <= k < |fields| ==> fields[1..][k - 1] == fields[k];
    }
  }

  /** The struct is `Unpin` exactly when every pinned field's type is: the
      conjunction over the pinned fields only. */
  lemma DerivedUnpinIsConjunction(input: DeriveInput, env: UnpinEnv)
    requires input.data.Struct?
    ensures DerivedUnpin(input, env) <==> PinnedFieldsUnpin(FieldList(input.data.fields), env)
  {
    var fields := FieldList(input.data.fields);
    PinnedFieldsUnpinIff(fields, env);
    var h := GuardOf(input).helper;
    assert h.dummy == DummyFieldType && IsUnpin(h.dummy, env);
    assert |h.fields| == |fields|;
    forall k | 0 <= k < |fields|
      ensures IsUnpin(h.fields[k].ty, env) <==> (HasPin(fields[k]) ==> IsUnpin(fields[k].ty, env))
    {
      ShadowRecordShape(input, k);
    }
  }

  /** A struct without pinned fields is always `Unpin`. */
  lemma NoPinnedFieldsUnpin(input: DeriveInput, env: UnpinEnv)
    requires input.data.Struct?
    requires forall k :: 0 <= k < |FieldList(input.data.fields)| ==> !HasPin(FieldList(input.data.fields)[k])
    ensures DerivedUnpin(input, env)
  {
    DerivedUnpinIsConjunction(input, env);
    PinnedFieldsUnpinIff(FieldList(input.data.fields), env);
  }

  /** The derived impl never makes a struct less `Unpin` than the auto-trait rule
      would: whenever all field types are `Unpin`, so is the struct. */
  lemma AutoUnpinImpliesDerived(input: DeriveInput, env: UnpinEnv)
    requires input.data.Struct?
    requires forall k :: 0 <= k < |FieldList(input.data.fields)| ==> IsUnpin(FieldList(input.data.fields)[k].ty, env)
    ensures DerivedUnpin(input, env)
  {
    DerivedUnpinIsConjunction(input, env);
    PinnedFieldsUnpinIff(FieldList(input.data.fields), env);
  }

  /** The generated items are coherent with the types that implement `Drop`: the
      blanket `impl<T: Drop> MustNotImplDrop for T` overlaps a guard's impl exactly
      when the guard's target implements `Drop`. */
  predicate Coherent(items: seq<Item>, dropTypes: set<string>)
  {
    forall k :: 0 <= k < |items| && items[k].Guard? ==> items[k].dropGuard.target.ident !in dropTypes
  }

  /** Every successful derivation is inconsistent for a struct that implements
      `Drop` and consistent for one that does not, whether or not any field is pinned. */
  lemma DropRejected(input: DeriveInput, hash: NameHash, dropTypes: set<string>)
    requires input.data.Struct?
    ensures Coherent(Generate(input, hash).value, dropTypes) <==> input.ident !in dropTypes
  {
    var items := Generate(input, hash).value;
    assert items[|items| - 1].dropGuard.target.ident == input.ident;
  }
}
