/**
 * The values a handler can find in a parsed JSON request body. A field the
 * client did not send reads as `undefined` in JavaScript.
 */
module Json {

  /** A JavaScript number. JSON cannot spell NaN, but `typeof NaN` is
      "number" and `isNaN` distinguishes it, so the model keeps it. */
  datatype Num = NaN | Finite(r: real)

  /** `typeof` partitions values: "undefined", "object" (null, arrays and
      objects), "boolean", "number" and "string". */
  datatype Value =
    | Undefined
    | Null
    | Bool(b: bool)
    | Number(n: Num)
    | Str(s: string)
    | Compound
}
