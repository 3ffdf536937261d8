/**
 * The Python values a raw market mapping can hold, and the few built-in
 * operations the core applies to them: truthiness, `len`, indexing,
 * `float()`, `str.lower()` and the substring test `k in s`.
 */
module PyValues {
  import opened Wrappers

  /** A value decoded from JSON, or found in a raw market mapping.  `Null` is `None`. */
  datatype Value =
    | Null
    | Bool(b: bool)
    | Int(i: int)
    | Float(x: real)
    | Str(s: string)
    | List(items: seq<Value>)
    | Dict(entries: map<string, Value>)

  /** An exception raised inside the price-reading `try` block. */
  datatype PyError =
    | KeyError(key: nat)               // indexing a dict with an integer
    | AttributeError(typeName: string) // `.lower()` on a value that is not a str

  /** Python truthiness (`if v:`, `not v`, `bool(v)`, `v or d`). */
  predicate Truthy(v: Value) {
    match v
    case Null => false
    case Bool(b) => b
    case Int(i) => i != 0
    case Float(x) => x != 0.0
    case Str(s) => s != ""
    case List(items) => items != []
    case Dict(entries) => entries != map[]
  }

  /** `type(v).__name__`. */
  function TypeName(v: Value): string {
    match v
    case Null => "NoneType"
    case Bool(_) => "bool"
    case Int(_) => "int"
    case Float(_) => "float"
    case Str(_) => "str"
    case List(_) => "list"
    case Dict(_) => "dict"
  }

  /** `len(v)` is defined (it raises TypeError on None, bool and numbers). */
  predicate Sized(v: Value) {
    v.Str? || v.List? || v.Dict?
  }

  /** `len(v)`. */
  function Len(v: Value): nat
    requires Sized(v)
  {
    match v
    case Str(s) => |s|
    case List(items) => |items|
    case Dict(entries) => |entries|
  }

  /**
   * `v[i]` for an index below `len(v)`: a list gives its element, a string its
   * one-character substring, and a dict (whose JSON keys are strings) raises
   * KeyError.
   */
  function Index(v: Value, i: nat): (r: Result<Value, PyError>)
    requires Sized(v) && i < Len(v)
    ensures r.Err? <==> v.Dict?
    ensures r.Err? ==> r.error == KeyError(i)
    ensures v.List? ==> r == Ok(v.items[i])
  {
    match v
    case Str(s) => Ok(Str([s[i]]))
    case List(items) => Ok(items[i])
    case Dict(_) => Err(KeyError(i))
  }

  /**
   * `float(v)`, given what `float` makes of a string.  None stands for the
   * ValueError or TypeError it raises.
   */
  function ToFloat(v: Value, floatOfStr: string -> Option<real>): (r: Option<real>)
    ensures v.Null? || v.List? || v.Dict? ==> r.None?
    ensures v.Float? ==> r == Some(v.x)
  {
    match v
    case Bool(b) => Some(if b then 1.0 else 0.0)
    case Int(i) => Some(i as real)
    case Float(x) => Some(x)
    case Str(s) => floatOfStr(s)
    case _ => None
  }

  function LowerChar(c: char): char {
    if 'A' <= c <= 'Z' then (c as int + 32) as char else c
  }

  /** `s.lower()`, folding the ASCII letters. */
  function Lower(s: string): (r: string)
    ensures |r| == |s|
    ensures forall i :: 0 <= i < |s| ==> r[i] == LowerChar(s[i])
  {
    if s == [] then [] else [LowerChar(s[0])] + Lower(s[1..])
  }

  /** `k in s` for strings: `k` occurs in `s` as a contiguous substring. */
  predicate Contains(s: string, k: string) {
    k <= s || (s != [] && Contains(s[1..], k))
  }

  /** `k` occurs in `s` starting at offset `i`. */
  ghost predicate OccursAt(s: string, k: string, i: int) {
    0 <= i && i + |k| <= |s| && s[i..i + |k|] == k
  }

  /** The recursive substring test agrees with "an occurrence at some offset". */
  lemma {:induction false} ContainsAt(s: string, k: string)
    ensures Contains(s, k) <==> exists i :: OccursAt(s, k, i)
  {
    if s == [] {
      if k <= s {
        assert OccursAt(s, k, 0);
      }
      if exists i :: OccursAt(s, k, i) {
        var i :| OccursAt(s, k, i);
        assert k <= s;
      }
    } else {
      ContainsAt(s[1..], k);
      if Contains(s[1..], k) {
        var i :| OccursAt(s[1..], k, i);
        assert OccursAt(s, k, i + 1) by {
          assert s[i + 1..i + 1 + |k|] == s[1..][i..i + |k|];
        }
      }
      if k <= s {
        assert OccursAt(s, k, 0);
      }
      if exists i :: OccursAt(s, k, i) {
        var i :| OccursAt(s, k, i);
        if i == 0 {
          assert k <= s;
        } else {
          assert OccursAt(s[1..], k, i - 1) by {
            assert s[1..][i - 1..i - 1 + |k|] == s[i..i + |k|];
          }
        }
      }
    }
  }

  /** A prefix occurs. */
  lemma PrefixContained(s: string, k: string)
    requires k <= s
    ensures Contains(s, k)
  {
  }

  /** `k` is not in `s` when no offset it could start at holds its first character. */
  lemma {:induction false} FirstCharAbsent(s: string, k: string)
    requires k != []
    requires forall i :: 0 <= i <= |s| - |k| ==> s[i] != k[0]
    ensures !Contains(s, k)
  {
    if s != [] {
      assert !(k <= s) by {
        if |k| <= |s| {
          assert s[0] != k[0];
        }
      }
      assert forall i :: 0 <= i <= |s[1..]| - |k| ==> s[1..][i] != k[0] by {
        forall i | 0 <= i <= |s[1..]| - |k|
          ensures s[1..][i] != k[0]
        {
          assert s[1..][i] == s[i + 1];
        }
      }
      FirstCharAbsent(s[1..], k);
    }
  }
}
