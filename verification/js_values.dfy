/** The slice of JavaScript runtime behaviour the service relies on: the values
    `JSON.parse` produces, property reads on them, `String.prototype.trim`, string
    conversion in a template literal, and the fields an object spread (`{...v}`)
    copies. */
module JsValues {
  /** A JavaScript value as produced by `JSON.parse`, plus `undefined`, which a read
      of a missing property yields. Numbers are exact rationals; objects are maps
      from key to value (key order is not modelled). */
  datatype Value =
    | Undefined
    | Null
    | Bool(b: bool)
    | Num(n: real)
    | Str(s: string)
    | Arr(items: seq<Value>)
    | Obj(fields: map<string, Value>)

  /** The exceptions the service's handlers can meet. Every one of them is caught by
      the enclosing handler and turned into a generic error response. */
  datatype JsError =
    | TypeError        // property read on null/undefined, calling a missing method
    | ReferenceError   // reading a name that is not in scope
    | SyntaxError      // JSON.parse rejected its input
    | ProviderFailure  // the language-model request failed or returned no text

  /** `null` and `undefined`: the only values whose property reads throw. */
  predicate IsNullish(v: Value) {
    v.Undefined? || v.Null?
  }

  /** The value of `v.key` for a non-nullish `v`: an own field of a parsed object, and
      `undefined` otherwise (none of the keys the service reads is inherited from a
      prototype). */
  function Property(v: Value, key: string): Value {
    if v.Obj? && key in v.fields then v.fields[key] else Undefined
  }

  // ---------------------------------------------------------------------------
  // String.prototype.trim

  /** The characters ECMAScript counts as WhiteSpace or LineTerminator, the set that
      `trim` strips from both ends. */
  predicate IsJsWhitespace(c: char) {
    || c == '\t' || c == '\n' || c == '\U{000B}' || c == '\U{000C}' || c == '\r' || c == ' '
    || c == '\U{00A0}' || c == '\U{1680}' || ('\U{2000}' <= c <= '\U{200A}')
    || c == '\U{2028}' || c == '\U{2029}' || c == '\U{202F}' || c == '\U{205F}'
    || c == '\U{3000}' || c == '\U{FEFF}'
  }

  /** Index of the first non-whitespace character at or after `from` (or `|s|`). */
  function SkipLeading(s: string, from: nat): (n: nat)
    requires from <= |s|
    ensures from <= n <= |s|
    ensures forall k :: from <= k < n ==> IsJsWhitespace(s[k])
    ensures n < |s| ==> !IsJsWhitespace(s[n])
    decreases |s| - from
  {
    if from < |s| && IsJsWhitespace(s[from]) then SkipLeading(s, from + 1) else from
  }

  /** One past the last non-whitespace character of `s[lo..upto]` (or `lo`). */
  function SkipTrailing(s: string, lo: nat, upto: nat): (m: nat)
    requires lo <= upto <= |s|
    ensures lo <= m <= upto
    ensures forall k :: m <= k < upto ==> IsJsWhitespace(s[k])
    ensures m > lo ==> !IsJsWhitespace(s[m - 1])
    decreases upto
  {
    if lo < upto && IsJsWhitespace(s[upto - 1]) then SkipTrailing(s, lo, upto - 1) else upto
  }

  /** Where the trimmed text starts in `s`. */
  function TrimStart(s: string): nat {
    SkipLeading(s, 0)
  }

  /** Where the trimmed text ends in `s`. */
  function TrimEnd(s: string): nat {
    SkipTrailing(s, TrimStart(s), |s|)
  }

  /** `s.trim()`: `s` without its leading and trailing whitespace. */
  function Trim(s: string): (r: string)
    ensures TrimStart(s) <= TrimEnd(s) <= |s| && r == s[TrimStart(s)..TrimEnd(s)]
    ensures forall k :: 0 <= k < TrimStart(s) ==> IsJsWhitespace(s[k])
    ensures forall k :: TrimEnd(s) <= k < |s| ==> IsJsWhitespace(s[k])
    ensures r != [] ==> !IsJsWhitespace(r[0]) && !IsJsWhitespace(r[|r| - 1])
  {
    s[TrimStart(s)..TrimEnd(s)]
  }

  // ---------------------------------------------------------------------------
  // String conversion

  /** Converting `v` to a string (`${v}` in a template literal, or an element inside
      `Array.prototype.join`) throws a TypeError. A parsed value is never callable, so
      an object with an own `toString` field has neither a usable `toString` nor, its
      inherited `valueOf` returning the object itself, a primitive fallback; without
      one it inherits `Object.prototype.toString`. An array converts through `join`,
      which skips null and undefined and converts every other element. Primitives
      always convert. */
  predicate StringConversionThrows(v: Value)
    decreases v
  {
    match v
    case Obj(m) => "toString" in m
    case Arr(xs) => exists k :: 0 <= k < |xs| && !IsNullish(xs[k]) && StringConversionThrows(xs[k])
    case _ => false
  }

  // ---------------------------------------------------------------------------
  // Object spread

  /** The decimal spelling of `n`, the key an array index or string index becomes. */
  function IndexKey(n: nat): (r: string)
    ensures |r| >= 1
    ensures forall k :: 0 <= k < |r| ==> '0' <= r[k] <= '9'
  {
    var d := [(('0' as int) + n % 10) as char];
    if n < 10 then d else IndexKey(n / 10) + d
  }

  /** Distinct indices have distinct decimal spellings. */
  lemma {:induction false} IndexKeyInjective(a: nat, b: nat)
    requires IndexKey(a) == IndexKey(b)
    ensures a == b
    decreases a
  {
    var ka, kb := IndexKey(a), IndexKey(b);
    assert a % 10 == b % 10 by {
      assert ka[|ka| - 1] == kb[|kb| - 1];
    }
    if a >= 10 && b >= 10 {
      assert ka[..|ka| - 1] == IndexKey(a / 10);
      assert kb[..|kb| - 1] == IndexKey(b / 10);
      IndexKeyInjective(a / 10, b / 10);
    }
  }

  /** The key of index `n` is the key of no smaller index. */
  lemma IndexKeyFresh(n: nat)
    ensures forall k :: 0 <= k < n ==> IndexKey(k) != IndexKey(n)
  {
    forall k | 0 <= k < n
      ensures IndexKey(k) != IndexKey(n)
    {
      if IndexKey(k) == IndexKey(n) {
        IndexKeyInjective(k, n);
      }
    }
  }

  /** The own enumerable index fields of an array-like `[xs[0], xs[1], ...]`: key
      `IndexKey(k)` holds `xs[k]`, and as those `|xs|` keys are distinct
      (`IndexKeyInjective`) and there are at most `|xs|` keys, there is no other. */
  function IndexedFields(xs: seq<Value>): (m: map<string, Value>)
    ensures forall k :: 0 <= k < |xs| ==> IndexKey(k) in m && m[IndexKey(k)] == xs[k]
    ensures |m.Keys| <= |xs|
  {
    if xs == [] then map[]
    else
      var last := |xs| - 1;
      var prev := xs[..last];
      IndexKeyFresh(last);
      assert forall k :: 0 <= k < last ==> prev[k] == xs[k];
      IndexedFields(prev)[IndexKey(last) := xs[last]]
  }

  /** The one-character strings of `s`, one per index. */
  function Characters(s: string): (cs: seq<Value>)
    ensures |cs| == |s|
    ensures forall k :: 0 <= k < |s| ==> cs[k] == Str([s[k]])
  {
    seq(|s|, k requires 0 <= k < |s| => Str([s[k]]))
  }

  /** The fields `{...v}` copies: an object's own fields, the indices of an array or a
      string, and nothing for the other primitives and for null/undefined. */
  function OwnFields(v: Value): map<string, Value> {
    match v
    case Obj(m) => m
    case Arr(xs) => IndexedFields(xs)
    case Str(s) => IndexedFields(Characters(s))
    case _ => map[]
  }
}
