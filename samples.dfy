/** The structs `Foo` and `Bar` of the repository's tests, and a few inputs that
    show the edges of the rules. */
module Samples {
  import opened Wrappers
  import opened Types
  import opened Syntax
  import Decimal
  import FieldDerive
  import PinDerive

  const PinAttr := Attribute(Path(false, [PathSegment("pin", false)]))
  const Usize := Scalar("usize")
  const NoGenerics := Generics([], None)

  /** `struct Foo { #[pin] a: usize, b: usize }` */
  const Foo := DeriveInput("Foo", NoGenerics, Struct(Named([
    Field([PinAttr], Some("a"), Usize),
    Field([], Some("b"), Usize)])))

  /** `struct Bar { #[pin] foo: Foo, c: usize }` */
  const Bar := DeriveInput("Bar", NoGenerics, Struct(Named([
    Field([PinAttr], Some("foo"), Adt("Foo", [])),
    Field([], Some("c"), Usize)])))

  /** `Foo` projects `a` as `Pin<&mut usize>` and `b` as `&mut usize`, with `Field`
      impls named `"a"` and `"b"` of type `usize`. */
  lemma FooDerivation(hash: NameHash)
    ensures var items := PinDerive.Generate(Foo, hash).value;
      && |items| == 3
      && items[0].wrapper == PinDerive.PinnedMut
      && items[1].wrapper == PinDerive.PlainMut
      && items[2].Guard?
    ensures var impls := FieldDerive.Generate(Foo, hash).value;
      && |impls| == 2
      && impls[0].name == "a" && impls[0].fieldType == Usize && impls[0].member == NamedMember("a")
      && impls[1].name == "b" && impls[1].fieldType == Usize && impls[1].member == NamedMember("b")
  {
  }

  /** `Bar` projects `foo` as `Pin<&mut Foo>` and `c` as plain `&mut usize`. */
  lemma BarDerivation(hash: NameHash)
    ensures var items := PinDerive.Generate(Bar, hash).value;
      && |items| == 3
      && items[0].wrapper == PinDerive.PinnedMut
      && items[1].wrapper == PinDerive.PlainMut
      && items[0].key == hash("foo") && items[1].key == hash("c")
    ensures var impls := FieldDerive.Generate(Bar, hash).value;
      && |impls| == 2
      && impls[0].name == "foo" && impls[0].fieldType == Adt("Foo", [])
      && impls[1].name == "c" && impls[1].fieldType == Usize
  {
  }

  /** `Foo` is `Unpin` whatever else is known: its one pinned field is a `usize`. */
  lemma FooIsUnpin(env: UnpinEnv)
    ensures PinDerive.DerivedUnpin(Foo, env)
  {
    PinDerive.DerivedUnpinIsConjunction(Foo, env);
  }

  /** `Bar` is `Unpin` exactly when `Foo` is, since `foo` is its only pinned field. */
  lemma BarUnpinFollowsFoo(env: UnpinEnv)
    ensures PinDerive.DerivedUnpin(Bar, env) <==> "Foo" in env.adts
  {
    PinDerive.DerivedUnpinIsConjunction(Bar, env);
    var fs := FieldList(Bar.data.fields);
    PinDerive.PinnedFieldsUnpinIff(fs, env);
    assert PinDerive.HasPin(fs[0]) && !PinDerive.HasPin(fs[1]);
  }

  /** When the environment records for `Foo` what its own derived impl gives it,
      `Bar` is `Unpin` too: both levels of the derive carry `Unpin` upwards. */
  lemma BarIsUnpin(env: UnpinEnv)
    requires ("Foo" in env.adts) == PinDerive.DerivedUnpin(Foo, env)
    ensures PinDerive.DerivedUnpin(Bar, env)
  {
    FooIsUnpin(env);
    BarUnpinFollowsFoo(env);
  }

  /** `struct Marked { #[pin] marker: PhantomPinned, value: usize }` */
  const Marked := DeriveInput("Marked", NoGenerics, Struct(Named([
    Field([PinAttr], Some("marker"), PhantomPinned),
    Field([], Some("value"), Usize)])))

  /** `struct Loose { marker: PhantomPinned, value: usize }`, with `#[pin]` on neither field. */
  const Loose := DeriveInput("Loose", NoGenerics, Struct(Named([
    Field([], Some("marker"), PhantomPinned),
    Field([], Some("value"), Usize)])))

  /** A pinned `!Unpin` field makes the struct `!Unpin`; the same field left
      unpinned does not, although without the derive it would. */
  lemma PinnedMarkerDecides(env: UnpinEnv)
    ensures !PinDerive.DerivedUnpin(Marked, env)
    ensures PinDerive.DerivedUnpin(Loose, env)
    ensures !AllUnpin([PhantomPinned, Usize], env)
  {
    PinDerive.DerivedUnpinIsConjunction(Marked, env);
    PinDerive.DerivedUnpinIsConjunction(Loose, env);
    assert !IsUnpin([PhantomPinned, Usize][0], env);
  }

  /** `struct Pair<T = usize>(#[pin] T, #[other::pin] usize)`: tuple fields are named
      `"0"` and `"1"`; a path that merely ends in `pin` does not pin; the default of
      `T` is gone from the impls. */
  const Pair := DeriveInput("Pair",
    Generics([TypeParam("T", [], Some(Usize))], None),
    Struct(Unnamed([
      Field([PinAttr], None, Param("T")),
      Field([Attribute(Path(false, [PathSegment("other", false), PathSegment("pin", false)]))], None, Usize)])))

  lemma PairDerivation(hash: NameHash)
    ensures var impls := FieldDerive.Generate(Pair, hash).value;
      && |impls| == 2
      && impls[0].name == "0" && impls[0].member == UnnamedMember(0)
      && impls[1].name == "1" && impls[1].member == UnnamedMember(1)
      && impls[0].generics == [TypeParam("T", [], None)]
      && impls[0].base == SelfTy("Pair", [TypeArg("T")])
    ensures var items := PinDerive.Generate(Pair, hash).value;
      && items[0].wrapper == PinDerive.PinnedMut
      && items[1].wrapper == PinDerive.PlainMut
  {
    assert Decimal.NatToString(0) == "0";
    assert Decimal.NatToString(1) == "1";
  }

  /** A unit struct gets no `Field` impls and only the guard; an enum gets an error. */
  lemma UnitAndEnum(hash: NameHash)
    ensures FieldDerive.Generate(DeriveInput("U", NoGenerics, Struct(Unit)), hash) == Ok([])
    ensures |PinDerive.Generate(DeriveInput("U", NoGenerics, Struct(Unit)), hash).value| == 1
    ensures PinDerive.Generate(DeriveInput("E", NoGenerics, Enum), hash)
      == Err(DeriveError("#[derive(Field)] cannot be applied to enum"))
  {
  }
}
