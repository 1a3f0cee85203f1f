/** The parsed input both derives start from (`syn::DeriveInput`), and the steps
    they share before their per-field loops: refusing enums and unions, naming
    each field, and stripping defaults from the generic parameters. */
module Syntax {
  import opened Wrappers
  import opened Types
  import Decimal

  datatype PathSegment = PathSegment(ident: string, hasArguments: bool)

  /** An attribute's path: `pin` in `#[pin]`, `a::b` in `#[a::b]`. */
  datatype Path = Path(leadingColon: bool, segments: seq<PathSegment>)

  datatype Attribute = Attribute(path: Path)

  /** One field: its attributes, its identifier (absent in a tuple struct) and its type. */
  datatype Field = Field(attrs: seq<Attribute>, ident: Option<string>, ty: Ty)

  datatype Fields = Named(named: seq<Field>) | Unnamed(unnamed: seq<Field>) | Unit

  datatype Data = Struct(fields: Fields) | Enum | Union

  datatype GenericParam =
    | LifetimeParam(lifetime: string, bounds: seq<string>)
    | TypeParam(ident: string, bounds: seq<string>, defaultType: Option<Ty>)
    | ConstParam(ident: string, ty: Ty, defaultValue: Option<string>)

  /** A bare generic argument, as written after the struct's name: `'a`, `T`, `N`. */
  datatype GenericArg = LifetimeArg(lifetime: string) | TypeArg(ident: string) | ConstArg(ident: string)

  datatype WherePredicate = WherePredicate(bounded: string, bounds: seq<string>)

  datatype WhereClause = WhereClause(predicates: seq<WherePredicate>)

  datatype Generics = Generics(params: seq<GenericParam>, whereClause: Option<WhereClause>)

  datatype DeriveInput = DeriveInput(ident: string, generics: Generics, data: Data)

  /** How a field is addressed in `(*ptr).member`: by identifier or by position. */
  datatype Member = NamedMember(ident: string) | UnnamedMember(index: nat)

  /** A named type applied to generic arguments: `#ident<#(#ty_generics,)*>`. */
  datatype SelfTy = SelfTy(ident: string, args: seq<GenericArg>)

  /** The field-name hash that keys every descriptor (64-bit FNV-1a of the name's
      UTF-8 bytes in the source). It is a parameter here: nothing in the model
      depends on its values, and distinct names are not assumed to hash apart. */
  type NameHash = string -> bv64

  /** The diagnostic a derive reports instead of generating code. */
  datatype DeriveError = DeriveError(message: string)

  const EnumMessage := "#[derive(Field)] cannot be applied to enum"
  const UnionMessage := "#[derive(Field)] cannot be applied to union"

  /** The fields of a struct, in declaration order; a unit struct has none, and
      an enum or a union is refused. */
  function StructFields(data: Data): (r: Result<seq<Field>, DeriveError>)
    ensures data.Enum? <==> r == Err(DeriveError(EnumMessage))
    ensures data.Union? <==> r == Err(DeriveError(UnionMessage))
    ensures r.Ok? <==> data.Struct?
    ensures data == Struct(Unit) ==> r == Ok([])
    ensures data.Struct? && data.fields.Named? ==> r == Ok(data.fields.named)
    ensures data.Struct? && data.fields.Unnamed? ==> r == Ok(data.fields.unnamed)
  {
    match data
    case Enum => Err(DeriveError(EnumMessage))
    case Union => Err(DeriveError(UnionMessage))
    case Struct(fields) =>
      match fields
      case Named(fs) => Ok(fs)
      case Unnamed(fs) => Ok(fs)
      case Unit => Ok([])
  }

  /** `syn` gives named fields an identifier and tuple fields none; rustc rejects
      duplicate identifiers, and the lemmas that need distinct names assume it. */
  predicate WellFormedFields(fields: Fields)
  {
    match fields
    case Named(fs) =>
      && (forall k :: 0 <= k < |fs| ==> fs[k].ident.Some?)
      && (forall j, k :: 0 <= j < k < |fs| ==> fs[j].ident != fs[k].ident)
    case Unnamed(fs) => forall k :: 0 <= k < |fs| ==> fs[k].ident.None?
    case Unit => true
  }

  /** The member that addresses each field: its identifier if it has one, its position otherwise. */
  function Members(fields: seq<Field>): (ms: seq<Member>)
    ensures |ms| == |fields|
    ensures forall k :: 0 <= k < |fields| && fields[k].ident.Some? ==> ms[k] == NamedMember(fields[k].ident.value)
    ensures forall k :: 0 <= k < |fields| && fields[k].ident.None? ==> ms[k] == UnnamedMember(k)
  {
    seq(|fields|, k requires 0 <= k < |fields| =>
      match fields[k].ident
      case Some(v) => NamedMember(v)
      case None => UnnamedMember(k))
  }

  /** The name string of a member: the identifier, or the position in decimal. */
  function MemberName(m: Member): (s: string)
    ensures m.NamedMember? ==> s == m.ident
    ensures m.UnnamedMember? ==> s == Decimal.NatToString(m.index)
    ensures m.UnnamedMember? ==> Decimal.ParseDecimal(s) == Some(m.index)
  {
    match m
    case NamedMember(v) => v
    case UnnamedMember(k) => Decimal.ParseNatToString(k); Decimal.NatToString(k)
  }

  /** The name strings of all fields. */
  function FieldNames(fields: seq<Field>): (names: seq<string>)
    ensures |names| == |fields|
  {
    var ms := Members(fields);
    seq(|fields|, k requires 0 <= k < |fields| => MemberName(ms[k]))
  }

  /** Named fields are named by their identifiers, tuple fields by their positions
      in decimal. */
  lemma FieldNaming(fields: Fields, k: nat)
    requires WellFormedFields(fields)
    requires k < |FieldList(fields)|
    ensures var names := FieldNames(FieldList(fields));
      && (fields.Named? ==> names[k] == fields.named[k].ident.value)
      && (fields.Unnamed? ==> names[k] == Decimal.NatToString(k))
  {
  }

  /** Within one well-formed struct no two fields share a name. */
  lemma FieldNamesDistinct(fields: Fields, j: nat, k: nat)
    requires WellFormedFields(fields)
    requires j < k < |FieldList(fields)|
    ensures var names := FieldNames(FieldList(fields));
      names[j] != names[k]
  {
    FieldNaming(fields, j);
    FieldNaming(fields, k);
    if fields.Unnamed? {
      if Decimal.NatToString(j) == Decimal.NatToString(k) {
        Decimal.NatToStringInjective(j, k);
      }
    }
  }

  /** The position of the field that `(*ptr).m` reaches in a struct with these fields, if any. */
  function ResolveMember(fields: Fields, m: Member): (r: Option<nat>)
    ensures r.Some? ==> r.value < |FieldList(fields)|
  {
    match (fields, m)
    case (Named(fs), NamedMember(v)) => FindNamed(fs, v, 0)
    case (Unnamed(fs), UnnamedMember(k)) => if k < |fs| then Some(k) else None
    case _ => None
  }

  function FieldList(fields: Fields): seq<Field>
  {
    match fields
    case Named(fs) => fs
    case Unnamed(fs) => fs
    case Unit => []
  }

  /** The first position at or after `from` whose field is called `v`. */
  function FindNamed(fs: seq<Field>, v: string, from: nat): (r: Option<nat>)
    ensures r.Some? ==> from <= r.value < |fs| && fs[r.value].ident == Some(v)
    ensures r.Some? ==> forall k :: from <= k < r.value ==> fs[k].ident != Some(v)
    ensures r.None? ==> forall k :: from <= k < |fs| ==> fs[k].ident != Some(v)
    decreases |fs| - from
  {
    if from >= |fs| then None
    else if fs[from].ident == Some(v) then Some(from)
    else FindNamed(fs, v, from + 1)
  }

  /** In a well-formed struct, the member derived for field `k` addresses field `k`
      and no other. */
  lemma MemberAddressesField(fields: Fields, k: nat)
    requires WellFormedFields(fields)
    requires k < |FieldList(fields)|
    ensures ResolveMember(fields, Members(FieldList(fields))[k]) == Some(k)
  {
    var fs := FieldList(fields);
    if fields.Named? {
      var r := FindNamed(fs, fs[k].ident.value, 0);
      assert r.Some? && fs[r.value].ident == fs[k].ident;
    }
  }

  /** A parameter with its default removed; a lifetime is left as it is. */
  function StripDefault(p: GenericParam): (q: GenericParam)
  {
    match p
    case LifetimeParam(_, _) => p
    case TypeParam(_, _, _) => p.(defaultType := None)
    case ConstParam(_, _, _) => p.(defaultValue := None)
  }

  predicate HasNoDefault(p: GenericParam)
  {
    match p
    case LifetimeParam(_, _) => true
    case TypeParam(_, _, d) => d.None?
    case ConstParam(_, _, d) => d.None?
  }

  /** The parameters in order and of the same kinds, with their type and const
      defaults removed and everything else unchanged. */
  function StripDefaults(ps: seq<GenericParam>): (qs: seq<GenericParam>)
    ensures |qs| == |ps|
    ensures forall k :: 0 <= k < |ps| ==> HasNoDefault(qs[k])
    ensures forall k :: 0 <= k < |ps| && ps[k].LifetimeParam? ==> qs[k] == ps[k]
    ensures forall k :: 0 <= k < |ps| && ps[k].TypeParam? ==>
      qs[k] == TypeParam(ps[k].ident, ps[k].bounds, None)
    ensures forall k :: 0 <= k < |ps| && ps[k].ConstParam? ==>
      qs[k] == ConstParam(ps[k].ident, ps[k].ty, None)
  {
    seq(|ps|, k requires 0 <= k < |ps| => StripDefault(ps[k]))
  }

  /** Stripping defaults twice is stripping them once. */
  lemma StripDefaultsIdempotent(ps: seq<GenericParam>)
    ensures StripDefaults(StripDefaults(ps)) == StripDefaults(ps)
  {
  }

  /** The bare argument that names a parameter. */
  function ArgOf(p: GenericParam): GenericArg
  {
    match p
    case LifetimeParam(l, _) => LifetimeArg(l)
    case TypeParam(t, _, _) => TypeArg(t)
    case ConstParam(c, _, _) => ConstArg(c)
  }

  /** `ty_generics`: the parameters' bare names, in order and of the same kinds. */
  function TyGenerics(ps: seq<GenericParam>): (args: seq<GenericArg>)
    ensures |args| == |ps|
    ensures forall k :: 0 <= k < |ps| && ps[k].LifetimeParam? ==> args[k] == LifetimeArg(ps[k].lifetime)
    ensures forall k :: 0 <= k < |ps| && ps[k].TypeParam? ==> args[k] == TypeArg(ps[k].ident)
    ensures forall k :: 0 <= k < |ps| && ps[k].ConstParam? ==> args[k] == ConstArg(ps[k].ident)
  {
    seq(|ps|, k requires 0 <= k < |ps| => ArgOf(ps[k]))
  }

  /** Removing defaults does not change the arguments that name the parameters. */
  lemma TyGenericsIgnoreDefaults(ps: seq<GenericParam>)
    ensures TyGenerics(StripDefaults(ps)) == TyGenerics(ps)
  {
  }

  /** The struct the generated impls are for, applied to its own parameters. */
  function SelfOf(input: DeriveInput): (t: SelfTy)
    ensures t == SelfTy(input.ident, TyGenerics(input.generics.params))
  {
    TyGenericsIgnoreDefaults(input.generics.params);
    SelfTy(input.ident, TyGenerics(StripDefaults(input.generics.params)))
  }
}
