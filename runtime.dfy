/**
 * The Java-side vocabulary that every part of the model shares: nullable
 * references, the exceptions thrown by generated code, the two property value
 * types of the reference scenario, and the `toString` renderings that end up
 * inside exception messages.
 */
module Runtime {

  /** A nullable Java reference: `None` stands for `null`. */
  datatype Option<+T> = None | Some(value: T)

  /** The exceptions that generated builders, values and partials throw. */
  datatype Error =
    | IllegalState(message: string)
    | UnsupportedOperation(message: string)
    | NullPointer

  /** The result of a Java call that either returns a value or throws. */
  datatype Result<+T> = Ok(value: T) | Err(error: Error)

  /** The result of a fluent call (one whose Java return value is `this`). */
  datatype Outcome = Done | Thrown(error: Error)

  /** A value of a property that is neither buildable nor a collection:
      a `String` or an `int`. */
  datatype Val = Str(s: string) | Num(n: int)

  /** `AbstractCollection.toString` of a collection whose elements render as
      `items`: "[a, b, c]". */
  function ShowList(items: seq<string>): (r: string)
    ensures |r| >= 2 && r[0] == '[' && r[|r| - 1] == ']'
  {
    "[" + Join(items) + "]"
  }

  /** The items separated by ", ". */
  function Join(items: seq<string>): string
  {
    if |items| == 0 then ""
    else if |items| == 1 then items[0]
    else items[0] + ", " + Join(items[1..])
  }

  /** `String.valueOf(int)`. */
  function IntToString(n: int): string
  {
    if n < 0 then "-" + NatToString(-n) else NatToString(n)
  }

  function NatToString(n: nat): string
    decreases n
  {
    if n < 10 then [DigitChar(n)] else NatToString(n / 10) + [DigitChar(n % 10)]
  }

  function DigitChar(d: nat): char
    requires d < 10
  {
    "0123456789"[d]
  }
}
