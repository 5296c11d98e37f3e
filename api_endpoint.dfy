/** The record the client's endpoint registry stores: a named (path, method, extra headers) triple. */
module ApiEndpoint {
  import opened Wrappers
  import opened Text

  /** A header mapping; header names are compared exactly, as in a Python dict. */
  type Headers = map<string, string>

  /** One remote operation (`httpMethod` is the source's `method` attribute). Its fields are set once when it is built and never changed. */
  datatype APIEndpoint = APIEndpoint(name: string, path: string, httpMethod: string, headers: Option<Headers>)

  /** `APIEndpoint(name, path, method, headers=None)`. */
  function New(name: string, path: string, httpMethod: string, headers: Option<Headers> := None): (e: APIEndpoint)
    ensures e.name == name && e.path == path && e.httpMethod == httpMethod && e.headers == headers
  {
    APIEndpoint(name, path, httpMethod, headers)
  }

  lemma NewHeadersDefault(name: string, path: string, httpMethod: string)
    ensures New(name, path, httpMethod).headers == None
  {
  }

  const StrPrefix := "ApiEndpoint(name="
  const PathLabel := ", path="
  const MethodLabel := ", method="

  /** `__str__`: the name, path and method; the headers are never shown. */
  function Str(e: APIEndpoint): (text: string)
  {
    StrPrefix + e.name + PathLabel + e.path + MethodLabel + e.httpMethod + ")"
  }

  /** `__repr__`, which delegates to `__str__`. */
  function Repr(e: APIEndpoint): (s: string)
    ensures s == Str(e)
  {
    Str(e)
  }

  /** `__str__` does not depend on the headers. */
  lemma StrIgnoresHeaders(e: APIEndpoint, h: Option<Headers>)
    ensures Str(e.(headers := h)) == Str(e)
  {
  }

  /**
   * Splits `s` at its first comma, provided the text there starts with `sep`
   * (itself starting with a comma): the part before and the part after `sep`.
   */
  function SplitAt(s: string, sep: string): (split: Option<(string, string)>)
  {
    var i := IndexOf(s, ',');
    var rest := s[i..];
    if |rest| < |sep| || rest[..|sep|] != sep then None
    else Some((s[..i], rest[|sep|..]))
  }

  lemma SplitAtLabel(a: string, sep: string, b: string)
    requires ',' !in a && |sep| > 0 && sep[0] == ','
    ensures SplitAt(a + sep + b, sep) == Some((a, b))
  {
    var s := a + sep + b;
    assert s == a + [','] + (sep[1..] + b);
    SplitAtFirst(a, ',', sep[1..] + b);
    assert s[|a|..] == sep + b;
  }

  /**
   * Reads a name, path and method back out of a `__str__` text: the name runs to the
   * first comma, the path to the next one, and the method to the closing parenthesis.
   */
  function ParseStr(s: string): (fields: Option<(string, string, string)>)
  {
    if |s| < |StrPrefix| + 1 || s[..|StrPrefix|] != StrPrefix || s[|s| - 1] != ')' then None
    else
      match SplitAt(s[|StrPrefix|..|s| - 1], PathLabel)
      case None => None
      case Some((name, rest)) =>
        match SplitAt(rest, MethodLabel)
        case None => None
        case Some((path, httpMethod)) => Some((name, path, httpMethod))
  }

  /** The string form identifies name, path and method whenever neither name nor path holds a comma. */
  lemma StrRoundTrip(e: APIEndpoint)
    requires ',' !in e.name && ',' !in e.path
    ensures ParseStr(Str(e)) == Some((e.name, e.path, e.httpMethod))
  {
    var s := Str(e);
    var rest := e.path + MethodLabel + e.httpMethod;
    var body := e.name + PathLabel + rest;
    assert s == StrPrefix + body + ")";
    assert s[..|StrPrefix|] == StrPrefix;
    assert s[|StrPrefix|..|s| - 1] == body;
    SplitAtLabel(e.name, PathLabel, rest);
    SplitAtLabel(e.path, MethodLabel, e.httpMethod);
  }
}
