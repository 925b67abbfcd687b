/** The JavaScript values the routes read from a request body, their
    truthiness and template-literal rendering, and the brace-span extraction
    `text.match(/\{[\s\S]*\}/)` the routes apply to model output. */
module Json {
  import opened Common
  import Text

  /** A scalar field of a parsed request body (integers only; an absent field
      reads as `Undefined`). */
  datatype Scalar = Undefined | Null | Bool(b: bool) | Num(n: int) | Str(s: string)

  /** JavaScript truthiness: `undefined`, `null`, `false`, `0` and `""` are falsy. */
  predicate Truthy(v: Scalar)
  {
    match v
    case Undefined => false
    case Null => false
    case Bool(b) => b
    case Num(n) => n != 0
    case Str(s) => s != ""
  }

  /** `${v}` in a template literal. */
  function Render(v: Scalar): string
  {
    match v
    case Undefined => "undefined"
    case Null => "null"
    case Bool(b) => if b then "true" else "false"
    case Num(n) => Text.IntToString(n)
    case Str(s) => s
  }

  /** A parsed JSON document; its exact shape never matters to the routes,
      which pass it back unchanged. */
  datatype JsonValue =
    | JNull
    | JBool(b: bool)
    | JNum(n: int)
    | JStr(s: string)
    | JArray(items: seq<JsonValue>)
    | JObject(members: seq<(string, JsonValue)>)

  /** The outcome of `JSON.parse`: a value, or the `SyntaxError` it throws. */
  datatype Parsed = Parsed(value: JsonValue) | SyntaxError(message: string)

  /** The index of the first occurrence of `c` in `s`. */
  function FirstIndexOf(s: string, c: char): (r: Option<nat>)
    ensures r.Some? ==> r.value < |s| && s[r.value] == c
    ensures r.Some? ==> forall k :: 0 <= k < r.value ==> s[k] != c
    ensures r.None? ==> forall k :: 0 <= k < |s| ==> s[k] != c
  {
    if |s| == 0 then None
    else if s[0] == c then Some(0)
    else match FirstIndexOf(s[1..], c)
      case None => None
      case Some(i) => Some(i + 1)
  }

  /** The index of the last occurrence of `c` in `s`. */
  function LastIndexOf(s: string, c: char): (r: Option<nat>)
    ensures r.Some? ==> r.value < |s| && s[r.value] == c
    ensures r.Some? ==> forall k :: r.value < k < |s| ==> s[k] != c
    ensures r.None? ==> forall k :: 0 <= k < |s| ==> s[k] != c
  {
    if |s| == 0 then None
    else if s[|s| - 1] == c then Some(|s| - 1)
    else LastIndexOf(s[..|s| - 1], c)
  }

  /** Some `{` comes before some `}`: the regular expression matches. */
  predicate HasBraceSpan(s: string)
  {
    exists i, j :: 0 <= i < j < |s| && s[i] == '{' && s[j] == '}'
  }

  /** `s[i..j+1]` is the leftmost-longest match of `\{[\s\S]*\}`: it opens at
      the first `{` of `s` and closes at the last `}`. */
  predicate IsLeftmostLongestSpan(s: string, i: int, j: int)
  {
    && 0 <= i < j < |s| && s[i] == '{' && s[j] == '}'
    && (forall k :: 0 <= k < i ==> s[k] != '{')
    && (forall k :: j < k < |s| ==> s[k] != '}')
  }

  /** The greedy brace span the routes hand to `JSON.parse`. */
  function BraceSpan(s: string): (r: Option<string>)
    ensures r.Some? <==> HasBraceSpan(s)
    ensures r.Some? ==> exists i, j :: IsLeftmostLongestSpan(s, i, j) && r.value == s[i..j + 1]
  {
    match (FirstIndexOf(s, '{'), LastIndexOf(s, '}'))
    case (Some(i), Some(j)) =>
      if i < j then
        assert IsLeftmostLongestSpan(s, i, j);
        Some(s[i..j + 1])
      else
        None
    case _ => None
  }

  /** At most one span is the leftmost-longest one. */
  lemma LeftmostLongestUnique(s: string, i: int, j: int, i': int, j': int)
    requires IsLeftmostLongestSpan(s, i, j) && IsLeftmostLongestSpan(s, i', j')
    ensures i == i' && j == j'
  {
  }

  /** A text made of a brace-free prefix, one braced object and a brace-free
      suffix yields exactly that object. */
  lemma BraceSpanOfObjectText(prefix: string, obj: string, suffix: string)
    requires 2 <= |obj| && obj[0] == '{' && obj[|obj| - 1] == '}'
    requires '{' !in prefix && '}' !in suffix
    ensures BraceSpan(prefix + obj + suffix) == Some(obj)
  {
    var s := prefix + obj + suffix;
    var i, j := |prefix|, |prefix| + |obj| - 1;
    forall k | 0 <= k < i
      ensures s[k] != '{'
    {
      assert s[k] == prefix[k];
    }
    forall k | j < k < |s|
      ensures s[k] != '}'
    {
      assert s[k] == suffix[k - j - 1];
    }
    assert s[i] == obj[0] && s[j] == obj[|obj| - 1];
    assert IsLeftmostLongestSpan(s, i, j);
    var i', j' :| IsLeftmostLongestSpan(s, i', j') && BraceSpan(s).value == s[i'..j' + 1];
    LeftmostLongestUnique(s, i, j, i', j');
    assert s[i..j + 1] == obj;
  }
}
