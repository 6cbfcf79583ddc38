/** Values shared by the whole model: optional values, members of a JSON
    request body, HTTP replies, and the string operations the application
    performs (JavaScript truthiness, `||` defaults, `<=` on strings,
    `toLowerCase` restricted to ASCII and Latin-1, `includes`). */
module Common {

  datatype Option<+T> = None | Some(value: T)

  /** A string member of a JSON request body or query string, as the
      handlers see it: missing (`undefined`), an explicit `null`, or a string. */
  datatype Field = Absent | Null | Str(s: string)

  /** JavaScript truthiness of a string member: only a non-empty string is truthy. */
  predicate Truthy(f: Field)
  {
    f.Str? && f.s != ""
  }

  /** `f || d` for a string member and a string default. */
  function OrElse(f: Field, d: string): (r: string)
    ensures Truthy(f) ==> r == f.s
    ensures !Truthy(f) ==> r == d
  {
    if Truthy(f) then f.s else d
  }

  /** `f || null`: the value stored in a nullable column. */
  function OrNull(f: Field): (r: Option<string>)
    ensures r.Some? <==> Truthy(f)
    ensures r.Some? ==> r.value == f.s
  {
    if Truthy(f) then Some(f.s) else None
  }

  /** The member passed unchanged as a SQL parameter: `undefined` and `null`
      both become SQL NULL, every string (the empty one too) is stored as is. */
  function AsColumn(f: Field): (r: Option<string>)
    ensures r.Some? <==> f.Str?
    ensures f.Str? ==> r.value == f.s
  {
    if f.Str? then Some(f.s) else None
  }

  /** The member inside a template literal: `${f}`. */
  function Interpolated(f: Field): string
  {
    match f
    case Absent => "undefined"
    case Null => "null"
    case Str(s) => s
  }

  /** An HTTP reply: a JSON value with a success status, or a status with the
      `{ message }` body the handlers send on every error path. */
  datatype Response<+T> = Ok(status: nat, value: T) | Err(status: nat, message: string)

  /** JavaScript (and code-point SQL) `a <= b` on strings: lexicographic order. */
  predicate StrLe(a: string, b: string)
    decreases |a|
  {
    if a == [] then true
    else if b == [] then false
    else if a[0] != b[0] then a[0] < b[0]
    else StrLe(a[1..], b[1..])
  }

  lemma {:induction false} StrLeReflexive(a: string)
    ensures StrLe(a, a)
    decreases |a|
  {
    if a != [] { StrLeReflexive(a[1..]); }
  }

  lemma {:induction false} StrLeTotal(a: string, b: string)
    ensures StrLe(a, b) || StrLe(b, a)
    decreases |a|
  {
    if a != [] && b != [] && a[0] == b[0] {
      StrLeTotal(a[1..], b[1..]);
    }
  }

  lemma {:induction false} StrLeTransitive(a: string, b: string, c: string)
    requires StrLe(a, b) && StrLe(b, c)
    ensures StrLe(a, c)
    decreases |a|
  {
    if a != [] && b != [] && c != [] && a[0] == b[0] && b[0] == c[0] {
      StrLeTransitive(a[1..], b[1..], c[1..]);
    }
  }

  lemma {:induction false} StrLeAntisymmetric(a: string, b: string)
    requires StrLe(a, b) && StrLe(b, a)
    ensures a == b
    decreases |a|
  {
    if a != [] && b != [] {
      StrLeAntisymmetric(a[1..], b[1..]);
      assert a == [a[0]] + a[1..] && b == [b[0]] + b[1..];
    }
  }

  /** An upper-case letter of ASCII or Latin-1 (`À` to `Þ` without `×`). */
  predicate IsUpperLatin1(c: char)
  {
    'A' <= c <= 'Z' || ('\U{C0}' <= c <= '\U{DE}' && c != '\U{D7}')
  }

  /** `toLowerCase` on one character, restricted to ASCII and Latin-1 letters:
      each capital maps to the small letter 32 code points above it. */
  function LowerChar(c: char): (r: char)
    ensures IsUpperLatin1(c) ==> r as int == c as int + 32
    ensures !IsUpperLatin1(c) ==> r == c
    ensures !IsUpperLatin1(r)
  {
    if IsUpperLatin1(c) then (c as int + 32) as char else c
  }

  function Lower(s: string): (r: string)
    ensures |r| == |s|
    ensures forall i :: 0 <= i < |s| ==> r[i] == LowerChar(s[i])
  {
    seq(|s|, i requires 0 <= i < |s| => LowerChar(s[i]))
  }

  /** Folding twice is folding once, so a search text that is already folded
      matches exactly what its original matches. */
  lemma LowerIdempotent(s: string)
    ensures Lower(Lower(s)) == Lower(s)
  {
  }

  /** `hay.includes(needle)`. */
  predicate Contains(hay: string, needle: string)
    decreases |hay|
  {
    needle <= hay || (hay != [] && Contains(hay[1..], needle))
  }
}
