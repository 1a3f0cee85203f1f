/** `#[derive(Field)]`: one `Field` impl per field of a struct, keyed by the hash
    of the field's name. */
module FieldDerive {
  import opened Wrappers
  import opened Types
  import opened Syntax

  /** One generated
        `unsafe impl<generics> Field<Self> for FieldName<key> where ... {
           type Type = fieldType; const NAME = name; fn map(ptr) = addr_of!((*ptr).member) }`. */
  datatype FieldImpl = FieldImpl(
    generics: seq<GenericParam>,
    base: SelfTy,
    key: bv64,
    whereClause: Option<WhereClause>,
    fieldType: Ty,
    name: string,
    member: Member)

  /** The impl generated for field `k` of the struct. */
  function ImplFor(input: DeriveInput, hash: NameHash, fields: seq<Field>, k: nat): FieldImpl
    requires k < |fields|
  {
    var m := Members(fields)[k];
    FieldImpl(StripDefaults(input.generics.params), SelfOf(input), hash(MemberName(m)),
              input.generics.whereClause, fields[k].ty, MemberName(m), m)
  }

  /** What the derive generates: an error for an enum or a union, otherwise exactly
      one impl per field, in declaration order, each keyed by the hash of its own `NAME`. */
  function Generate(input: DeriveInput, hash: NameHash): (r: Result<seq<FieldImpl>, DeriveError>)
    ensures input.data.Enum? ==> r == Err(DeriveError(EnumMessage))
    ensures input.data.Union? ==> r == Err(DeriveError(UnionMessage))
    ensures input.data.Struct? <==> r.Ok?
    ensures r.Ok? ==> |r.value| == |FieldList(input.data.fields)|
    ensures r.Ok? ==> forall k :: 0 <= k < |r.value| ==> r.value[k].key == hash(r.value[k].name)
  {
    match StructFields(input.data)
    case Err(e) => Err(e)
    case Ok(fields) => Ok(seq(|fields|, k requires 0 <= k < |fields| => ImplFor(input, hash, fields, k)))
  }

  /** The derive as the source runs it: name the fields, strip the defaults, then
      push one impl per field. */
  method Derive(input: DeriveInput, hash: NameHash) returns (r: Result<seq<FieldImpl>, DeriveError>)
    ensures r == Generate(input, hash)
  {
    var fields: seq<Field>;
    match input.data {
      case Struct(fs) =>
        match fs {
          case Named(named) => fields := named;
          case Unnamed(unnamed) => fields := unnamed;
          case Unit => fields := [];
        }
      case Enum => return Err(DeriveError(EnumMessage));
      case Union => return Err(DeriveError(UnionMessage));
    }
    var fieldName := Members(fields);
    var generics := StripDefaults(input.generics.params);
    var tyGenerics := TyGenerics(generics);
    var builder: seq<FieldImpl> := [];
    for i := 0 to |fieldName|
      invariant |builder| == i
      invariant forall k :: 0 <= k < i ==> builder[k] == ImplFor(input, hash, fields, k)
    {
      var current := fieldName[i];
      var nameStr := MemberName(current);
      var ty := fields[i].ty;
      var fieldNameHash := hash(nameStr);
      builder := builder + [FieldImpl(generics, SelfTy(input.ident, tyGenerics), fieldNameHash,
                                      input.generics.whereClause, ty, nameStr, current)];
    }
    assert fields == StructFields(input.data).value;
    assert builder == seq(|fields|, k requires 0 <= k < |fields| => ImplFor(input, hash, fields, k));
    r := Ok(builder);
  }

  /** Impl `k` describes field `k`: its `Type` is the field's declared type, its
      `NAME` is the field's identifier or its position in decimal, and its `map`
      addresses that field and no other. */
  lemma ImplDescribesField(input: DeriveInput, hash: NameHash, k: nat)
    requires input.data.Struct? && WellFormedFields(input.data.fields)
    requires k < |FieldList(input.data.fields)|
    ensures var impl := Generate(input, hash).value[k];
      var fields := input.data.fields;
      && impl.fieldType == FieldList(fields)[k].ty
      && (fields.Named? ==> impl.name == fields.named[k].ident.value)
      && (fields.Unnamed? ==> impl.name == Decimal.NatToString(k))
      && ResolveMember(fields, impl.member) == Some(k)
  {
    MemberAddressesField(input.data.fields, k);
  }

  /** Two fields of one well-formed struct never get the same `NAME`, so their keys
      differ unless the hash itself collides. */
  lemma NamesDistinct(input: DeriveInput, hash: NameHash, j: nat, k: nat)
    requires input.data.Struct? && WellFormedFields(input.data.fields)
    requires j < k < |FieldList(input.data.fields)|
    ensures Generate(input, hash).value[j].name != Generate(input, hash).value[k].name
  {
    FieldNamesDistinct(input.data.fields, j, k);
  }

  /** Every impl is generic over the struct's parameters without their defaults,
      and is for the struct applied to those parameters' bare names, under the
      struct's own where clause. */
  lemma ImplGenerics(input: DeriveInput, hash: NameHash, k: nat)
    requires input.data.Struct?
    requires k < |FieldList(input.data.fields)|
    ensures var impl := Generate(input, hash).value[k];
      && impl.generics == StripDefaults(input.generics.params)
      && impl.base == SelfTy(input.ident, TyGenerics(impl.generics))
      && impl.whereClause == input.generics.whereClause
  {
  }
}
