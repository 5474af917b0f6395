/** The values the gateway passes around: decoded JSON, and the optional string of Python's `str | None`. */
module JsonValues {

  datatype Option<+T> = None | Some(value: T)

  datatype Result<+T, +E> = Ok(value: T) | Err(error: E)

  /** A decoded JSON value.  Objects are Python dictionaries; numbers are the integers. */
  datatype Json =
    | Null
    | Bool(b: bool)
    | Num(n: int)
    | Str(s: string)
    | Arr(elems: seq<Json>)
    | Obj(fields: map<string, Json>)

  type Fields = map<string, Json>

  /** `d.get(key, default)`. */
  function GetOr(d: Fields, key: string, default: Json): Json {
    if key in d then d[key] else default
  }

  /** `d.get(key)`: a missing key and an explicit null read the same. */
  function Get(d: Fields, key: string): Json {
    GetOr(d, key, Null)
  }

  /** Python truth of a decoded value. */
  predicate Truthy(j: Json) {
    match j
    case Null => false
    case Bool(b) => b
    case Num(n) => n != 0
    case Str(s) => s != ""
    case Arr(a) => a != []
    case Obj(o) => o != map[]
  }

  /** `isinstance(j, dict) and j.get(key) == text`. */
  predicate HasField(j: Json, key: string, text: string) {
    j.Obj? && Get(j.fields, key) == Str(text)
  }

  /** All but the last element, and the last: sequences here grow at the end, as the source's lists do. */
  function Init<T>(s: seq<T>): seq<T>
    requires s != []
  {
    s[..|s| - 1]
  }

  function Last<T>(s: seq<T>): T
    requires s != []
  {
    s[|s| - 1]
  }

  predicate Ascending(d: seq<nat>) {
    forall i, j :: 0 <= i < j < |d| ==> d[i] < d[j]
  }

  predicate Distinct<T(==)>(s: seq<T>) {
    forall i, j :: 0 <= i < j < |s| ==> s[i] != s[j]
  }

  /** `t` is what is left of `s` after dropping some elements at the front. */
  predicate IsSuffix<T(==)>(t: seq<T>, s: seq<T>) {
    |t| <= |s| && s[|s| - |t|..] == t
  }

  lemma {:induction false} AppendAssociative<T>(a: seq<T>, b: seq<T>, c: seq<T>)
    ensures a + b + c == a + (b + c)
  {
  }

  lemma {:induction false} TakeOneMore<T>(s: seq<T>, i: nat)
    requires i < |s|
    ensures s[..i + 1] == s[..i] + [s[i]]
  {
  }

  function Reverse<T>(s: seq<T>): (r: seq<T>)
    ensures |r| == |s|
    ensures forall k :: 0 <= k < |s| ==> r[k] == s[|s| - 1 - k]
  {
    seq(|s|, k requires 0 <= k < |s| => s[|s| - 1 - k])
  }

  /** Reversal turns what is kept at the front into what is kept at the back. */
  lemma {:induction false} ReversePrefix<T>(t: seq<T>, s: seq<T>)
    requires t <= s
    ensures IsSuffix(Reverse(t), Reverse(s))
  {
  }

  lemma {:induction false} SubsetSize<T>(a: set<T>, b: set<T>)
    requires a <= b
    ensures |a| <= |b|
  {
    if a != {} {
      var x :| x in a;
      SubsetSize(a - {x}, b - {x});
    }
  }
}
