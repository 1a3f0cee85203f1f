# field-projection derives, modelled in Dafny

This project models the two derive macros of `field-projection-internal`.

- `#[derive(Field)]` reads a struct and emits one `Field` impl per field. Each impl is keyed by
  `FieldName<hash(name)>`. It carries the field's `Type`, its `NAME`, and a `map` that addresses that member.
- `#[derive(PinField)]` emits one `PinField` impl per field. The impl says what a projection from
  `Pin<&mut Self>` yields: `Pin<&mut _>` for a field marked `#[pin]`, `&mut _` for any other.
  It then emits one guard item. The guard holds a shadow record `__UnpinHelper`, an
  `Unpin` impl bounded on that record, and a `MustNotImplDrop` impl that clashes with any `Drop` impl.

The parsed input (`syn::DeriveInput`) and the generated items are datatypes, not token streams.
Each derive is a method with the source's per-field loop. Each method is proved equal to a
specification function, `Generate`, and the properties are proved as lemmas about `Generate`.

Modules, one file each:

- `Wrappers` (wrappers.dfy): `Option` and `Result`.
- `Types` (types.dfy): a small universe of Rust types with an `IsUnpin` predicate.
  `AlwaysUnpin<T>` and references are always `Unpin`. `PhantomData<T>` is `Unpin` exactly when `T` is.
  `PhantomPinned` never is. Nominal types and generic parameters get their status from an environment.
- `Decimal` (decimal.dfy): the decimal rendering of a field position, and a parser that reads it back.
- `Syntax` (syntax.dfy): the input, and the steps both derives share before their loops.
  These are refusing enums and unions, naming fields, stripping generic defaults, and building `ty_generics`.
  It also says which field a member expression `(*ptr).m` reaches.
- `FieldDerive` (field_derive.dfy): field.rs.
- `PinDerive` (pin_derive.dfy): pin.rs.
- `Samples` (samples.dfy): the structs `Foo` and `Bar` of tests/foo.rs, and a few edge inputs.

The field-name hash (64-bit FNV-1a in the source, from an external crate) is a parameter
`hash: string -> bv64` of both derives. Nothing depends on its values. Injectivity is never assumed.

The `MustNotImplDrop` guard is emitted in every successful `PinField` derivation, whether or not
any field is `#[pin]`. The guard does not look at the pin flags, so a struct that implements `Drop`
is refused even with no pinned field (`PinDerive.DropRejected`).

The source strips generic defaults by updating each owned parameter inside a `map`. The model
writes that as a datatype update of each parameter (`Syntax.StripDefaults`).

## Model

| member | source | states |
|---|---|---|
| `Decimal.NatToString` | field-projection-internal/src/field.rs:84 | a position renders as a non-empty string of decimal digits; it starts with `0` only for position 0, which renders as `"0"` |
| `Decimal.ParseNatToString` | field-projection-internal/src/field.rs:84 | parsing the rendered position gives back the position |
| `Decimal.NatToStringInjective` | field-projection-internal/src/field.rs:84 | distinct positions render as distinct strings |
| `Syntax.StructFields` | field-projection-internal/src/field.rs:18-38 | an enum gets exactly the enum message and a union exactly the union message; only a struct yields fields, named or tuple fields as declared, and a unit struct yields none |
| `Syntax.Members` | field-projection-internal/src/field.rs:40-47 | one member per field, in order: the identifier if the field has one, its position otherwise |
| `Syntax.MemberName` | field-projection-internal/src/field.rs:82-85 | a named member's string is its identifier; a positional member's string is the shortest decimal numeral of its position (`Decimal.NatToString`), which parses back to that position |
| `Syntax.FieldNaming` | field-projection-internal/src/field.rs:40-47 | in a well-formed struct, every named field is named by its identifier and every tuple field by its decimal position |
| `Syntax.FieldNamesDistinct` | field-projection-internal/src/field.rs:40-47 | in a well-formed struct no two fields share a name |
| `Syntax.FindNamed` | field-projection-internal/src/field.rs:101 | a found position holds a field with that identifier and no earlier field has it; no position is found only when no field from the start has it |
| `Syntax.ResolveMember` | field-projection-internal/src/field.rs:101 | a member resolves, if at all, to a position inside the struct |
| `Syntax.MemberAddressesField` | field-projection-internal/src/field.rs:100-101 | in a well-formed struct, the member derived for field k resolves to position k and to no other |
| `Syntax.StripDefaults` | field-projection-internal/src/field.rs:55-65 | parameters keep their order, kind, names, bounds and const types; type and const defaults are removed; lifetimes are unchanged |
| `Syntax.StripDefaultsIdempotent` | field-projection-internal/src/field.rs:55-65 | stripping defaults a second time changes nothing |
| `Syntax.TyGenerics` | field-projection-internal/src/field.rs:66-75 | `ty_generics` lists the parameters' bare names in order and of the same kinds: the lifetime, the type identifier, the const identifier |
| `Syntax.TyGenericsIgnoreDefaults` | field-projection-internal/src/field.rs:55-75 | the bare names are the same before and after defaults are stripped |
| `Syntax.SelfOf` | field-projection-internal/src/field.rs:94 | the impls are for the struct's own name applied to `ty_generics`, the bare names of its parameters in order, whether or not the parameters had defaults |
| `FieldDerive.Generate` | field-projection-internal/src/field.rs:9-109 | an enum or a union gets its error and no impls; a struct gets exactly one impl per field, and every impl's key is the hash of its own `NAME` |
| `FieldDerive.Derive` | field-projection-internal/src/field.rs:77-108 | the loop that pushes one impl per field produces exactly `Generate`'s result |
| `FieldDerive.ImplDescribesField` | field-projection-internal/src/field.rs:86-101 | impl k's `Type` is field k's declared type, its `NAME` is field k's identifier or decimal position, and its `map` addresses field k and no other |
| `FieldDerive.NamesDistinct` | field-projection-internal/src/field.rs:82-98 | two fields of a well-formed struct never get the same `NAME`, so their keys can coincide only by a hash collision |
| `FieldDerive.ImplGenerics` | field-projection-internal/src/field.rs:91-95 | every impl is generic over the defaults-stripped parameters, is for the struct applied to their bare names, and keeps the struct's where clause |
| `PinDerive.AnyPinIff` | field-projection-internal/src/pin.rs:43 | the attribute scan reports `#[pin]` exactly when some attribute's path is the single identifier `pin` |
| `PinDerive.PinFlags` | field-projection-internal/src/pin.rs:41-44 | `has_pin` has one flag per field, and flag k is set exactly when some attribute of field k has the path `pin` |
| `PinDerive.Generate` | field-projection-internal/src/pin.rs:9-152 | an enum or a union gets the `#[derive(Field)]` error; a struct gets one item per field plus one more, and the only guard is the last item |
| `PinDerive.Derive` | field-projection-internal/src/pin.rs:83-151 | the loop that pushes one impl and one shadow field per field, followed by the guard push, produces exactly `Generate`'s result |
| `PinDerive.GuardOf` | field-projection-internal/src/pin.rs:131-148 | a struct's derivation ends in a guard item, the same one whatever the hash |
| `PinDerive.PinFieldImplFor` | field-projection-internal/src/pin.rs:88-112 | item k is a `PinField` impl whose wrapper is `Pin<&mut _>` exactly when field k has a `pin` attribute and `&mut _` otherwise; its key equals the `Field` derive's key for the same field, the hash of that field's name, for the same struct, parameters and where clause |
| `PinDerive.ShadowRecordShape` | field-projection-internal/src/pin.rs:114-135 | the shadow record has the phantom field and one field per original field, in order; shadow field k is named `__field<k>` and has the real type if field k is pinned and `AlwaysUnpin` of it otherwise |
| `PinDerive.ShadowNamesDistinct` | field-projection-internal/src/pin.rs:114 | the shadow field names are pairwise distinct |
| `PinDerive.UnpinImplBoundsHelper` | field-projection-internal/src/pin.rs:131-146 | the helper record is generic over `'__dummy_lifetime` followed by the defaults-stripped parameters, under the struct's where clause; the `Unpin` impl is for the struct itself, over the same parameters, keeps the struct's where predicates (none if there is no where clause), and is bounded on the helper applied to exactly those parameters; the drop guard is for the struct applied to `ty_generics`, over the stripped parameters and the struct's where clause |
| `PinDerive.PinnedFieldsUnpinIff` | field-projection-internal/src/pin.rs:115-123 | the field-by-field conjunction over pinned fields holds exactly when every pinned field's type is `Unpin` |
| `PinDerive.DerivedUnpinIsConjunction` | field-projection-internal/src/pin.rs:132-141 | the struct is `Unpin` (its helper is) exactly when the conjunction over its pinned fields' types holds; unpinned fields do not take part |
| `PinDerive.NoPinnedFieldsUnpin` | field-projection-internal/src/pin.rs:120-122 | a struct without pinned fields is always `Unpin` |
| `PinDerive.AutoUnpinImpliesDerived` | field-projection-internal/src/pin.rs:137-141 | whenever every field type is `Unpin`, the struct is `Unpin` under the derived impl too |
| `PinDerive.DropRejected` | field-projection-internal/src/pin.rs:143-148 | the generated items are coherent exactly when the struct does not implement `Drop`, with or without pinned fields |
| `Samples.FooDerivation` | tests/foo.rs:6-11 | `Foo.a` projects as `Pin<&mut usize>`, `Foo.b` as `&mut usize`; the `Field` impls are named `"a"` and `"b"`, both of type `usize` |
| `Samples.BarDerivation` | tests/foo.rs:13-18 | `Bar.foo` projects as `Pin<&mut Foo>` and `Bar.c` as plain `&mut usize`, keyed by the hashes of `"foo"` and `"c"` |
| `Samples.FooIsUnpin` | tests/foo.rs:6-11 | `Foo` is `Unpin` in every environment |
| `Samples.BarUnpinFollowsFoo` | tests/foo.rs:13-18 | `Bar` is `Unpin` exactly when the environment has `Foo` as `Unpin` |
| `Samples.BarIsUnpin` | tests/foo.rs:6-18 | when the environment's `Unpin` for `Foo` is what `Foo`'s own derived impl gives, `Bar` is `Unpin` |
| `Samples.PinnedMarkerDecides` | field-projection-internal/src/pin.rs:115-123 | a pinned `PhantomPinned` makes the struct `!Unpin`; an unpinned one does not, though the auto-trait rule alone would |
| `Samples.PairDerivation` | field-projection-internal/src/field.rs:43-46 | tuple fields are named `"0"` and `"1"`; a two-segment path ending in `pin` does not pin; a type default is gone from the impl generics |
| `Samples.UnitAndEnum` | field-projection-internal/src/field.rs:18-37 | a unit struct gets no `Field` impls and only the guard, and an enum gets the enum error |

## Left out

- Parsing with `syn::parse2` and its errors: the model starts from an already-parsed input.
- Token assembly with `quote!`, spans and `mixed_site` hygiene: items are datatypes, not token streams.
- The where-clause splice at field-projection-internal/src/pin.rs:126-130. The model keeps the where predicates as a list and puts the helper bound in a field of its own. It does not model how the tokens are joined, for example whether a comma separates the last original predicate from the added bound.
- The FNV-1a hash itself, from the external `const_fnv1a_hash` crate: it is a parameter, and collisions are neither detected nor handled.
- The `map` function's address arithmetic (`addr_of!`): the model keeps the member expression, and `Syntax.ResolveMember` says which field it reaches.
- `Projectable` for `Pin<&mut T>` (src/pin.rs), the `project!` macro, and the trait declarations of src/lib.rs: these are unsafe pointer casts and declarations, with no generator logic.
- How the `PinField` derive and its `pin` helper attribute are registered: field-projection-internal/src/lib.rs registers only `Field` and is not part of this model.
- `field_projection::AlwaysUnpin<T>` is not defined in the source files modelled here. It is taken to be `Unpin` for every `T`, as its name and its use in the shadow record indicate. `PinDerive.DerivedUnpinIsConjunction` depends on that.
- `PinDerive.DerivedUnpin` evaluates the emitted `Unpin` impl only as far as the model's types go: the impl applies to the struct it names, and its helper bound holds exactly when every field of the helper record is `Unpin` by the auto-trait rule. The struct's own where predicates are not evaluated.
- Rust trait solving. `Unpin` of a nominal type or a generic parameter comes from an environment, keyed by name and ignoring type arguments. Coherence is modelled only for the `MustNotImplDrop` guard, as a predicate over the generated items.
- `syn::Index::from(usize)` panics for a position of `u32::MAX` or more. Positions here are unbounded naturals.
- Identifiers are taken as their `to_string` text, so a raw identifier keeps its `r#` prefix. No other identifier rule is modelled.
- The runtime behaviour of tests/foo.rs (`MaybeUninit` writes, `Box::pin`): only its struct declarations are used, as inputs.
