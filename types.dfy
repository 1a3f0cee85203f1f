/** A small universe of Rust types, rich enough to say which of them are `Unpin`. */
module Types {

  datatype Ty =
    | Scalar(name: string)               // a primitive such as `usize`, `bool` or `()`
    | Adt(name: string, args: seq<Ty>)   // a nominal struct, enum or union, possibly generic
    | Param(name: string)                // a generic type parameter in scope
    | PhantomPinned                      // `core::marker::PhantomPinned`, the standard `!Unpin` marker
    | Ref(mutable: bool, referent: Ty)   // `&'a T` or `&'a mut T`
    | PhantomData(marked: Ty)            // `core::marker::PhantomData<T>`
    | AlwaysUnpin(wrapped: Ty)           // `field_projection::AlwaysUnpin<T>`

  /** What the trait solver knows about the types it cannot look into: the nominal
      types and the generic parameters that are `Unpin`. */
  datatype UnpinEnv = UnpinEnv(adts: set<string>, params: set<string>)

  /** Whether `t: Unpin` holds. Primitives and references always are; `PhantomData<T>`
      is exactly when `T` is (auto-trait rule); `AlwaysUnpin<T>` always is;
      `PhantomPinned` never is. */
  predicate IsUnpin(t: Ty, env: UnpinEnv)
  {
    match t
    case Scalar(_) => true
    case Adt(name, _) => name in env.adts
    case Param(name) => name in env.params
    case PhantomPinned => false
    case Ref(_, _) => true
    case PhantomData(m) => IsUnpin(m, env)
    case AlwaysUnpin(_) => true
  }

  /** Rust's auto-trait rule for a struct without an explicit `Unpin` impl: it is
      `Unpin` exactly when every one of its field types is. */
  predicate AllUnpin(tys: seq<Ty>, env: UnpinEnv)
  {
    forall k :: 0 <= k < |tys| ==> IsUnpin(tys[k], env)
  }
}
