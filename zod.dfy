/**
 * The part of the zod validation library the schemas use: a JSON value, an
 * object shape mapping each key to a field rule (`z.string().min(1)`,
 * `z.string().optional()`, `z.enum([...])`), acceptance of an object by a
 * shape, and `.extend`.
 */
module Zod {

  /** A parsed JSON value. */
  datatype Value =
    | Str(s: string)
    | Number(n: int)
    | Bool(b: bool)
    | Null
    | Arr(items: seq<Value>)
    | Obj(fields: map<string, Value>)

  /** A JSON object; a key the sender omitted is absent (`undefined`). */
  type Object = map<string, Value>

  datatype Rule =
    | NonEmptyString          // z.string().min(1)
    | OptionalString          // z.string().optional()
    | Enum(options: seq<string>)  // z.enum(options)

  /** The argument of `z.object(...)`. */
  type Shape = map<string, Rule>

  /** Whether the value under `key` in `o` passes `rule`. */
  predicate FieldAccepts(rule: Rule, o: Object, key: string) {
    match rule
    case NonEmptyString => key in o && o[key].Str? && |o[key].s| >= 1
    case OptionalString => key !in o || o[key].Str?
    case Enum(options) => key in o && o[key].Str? && o[key].s in options
  }

  /** `z.object(shape).safeParse(o).success`: every key of the shape passes its rule. */
  predicate Accepts(shape: Shape, o: Object) {
    forall key :: key in shape ==> FieldAccepts(shape[key], o, key)
  }

  /** `z.object(base).extend(extension)`: the shapes are merged, the extension winning on a shared key. */
  function Extend(base: Shape, extension: Shape): (r: Shape)
    ensures r.Keys == base.Keys + extension.Keys
    ensures forall key :: key in extension ==> r[key] == extension[key]
    ensures forall key :: key in base && key !in extension ==> r[key] == base[key]
  {
    base + extension
  }

  /**
   * An extension that overrides no key of its base accepts exactly the
   * objects both the base and the extension accept.
   */
  lemma ExtendAcceptsIff(base: Shape, extension: Shape, o: Object)
    requires base.Keys !! extension.Keys
    ensures Accepts(Extend(base, extension), o) <==> Accepts(base, o) && Accepts(extension, o)
  {
    if Accepts(Extend(base, extension), o) {
      forall key | key in base ensures FieldAccepts(base[key], o, key) {
        assert key in Extend(base, extension);
      }
    }
  }

  /** Keys the shape does not name play no part in acceptance (zod strips them). */
  lemma UnknownKeyIgnored(shape: Shape, o: Object, key: string, v: Value)
    requires key !in shape
    ensures Accepts(shape, o[key := v]) <==> Accepts(shape, o)
  {
    if Accepts(shape, o) {
      forall k | k in shape ensures FieldAccepts(shape[k], o[key := v], k) {
        assert FieldAccepts(shape[k], o, k);
      }
    }
    if Accepts(shape, o[key := v]) {
      forall k | k in shape ensures FieldAccepts(shape[k], o, k) {
        assert FieldAccepts(shape[k], o[key := v], k);
      }
    }
  }
}
