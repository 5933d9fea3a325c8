/** The typed error family of errors.go: a base record (message, optional HTTP
    status, optional numeric code, optional details) wrapped by four concrete
    pointer types, the `IsD3*` type tests, and `FormatError`. */
module Errors {
  import opened Wrappers
  import Decimal

  /** Which concrete Go type an error value has. `Base` is a bare
      `*D3ClientError`, which is itself an `error`. */
  datatype Kind = Base | Api | Validation | Upload | Timeout

  /** The fields of `D3ClientError`. `details` stands for the `interface{}`
      field: `None` is nil, `Some(d)` any other value, kept opaque. */
  datatype ClientError = ClientError(
    message: string,
    statusCode: Option<int>,
    code: Option<int>,
    details: Option<string>)

  /** An `error` value: one of the typed errors, or any other error such as
      those `errors.New` and `fmt.Errorf` build. */
  datatype Error = Typed(kind: Kind, fields: ClientError) | Other(text: string)

  const TimeoutDefaultMessage := "Operation timed out"
  const ApiPrefix := "API Error ("
  const ApiSeparator := "): "

  /** `err.Error()`: the typed errors answer with their message. */
  function Text(e: Error): string {
    match e
    case Typed(_, f) => f.message
    case Other(t) => t
  }

  predicate IsApiError(e: Error) {
    e.Typed? && e.kind == Api
  }

  predicate IsValidationError(e: Error) {
    e.Typed? && e.kind == Validation
  }

  predicate IsUploadError(e: Error) {
    e.Typed? && e.kind == Upload
  }

  predicate IsTimeoutError(e: Error) {
    e.Typed? && e.kind == Timeout
  }

  /** Each type assertion names one concrete type, so at most one holds, and
      none holds for an error that is not one of the typed errors. */
  lemma KindsExclusive(e: Error)
    ensures IsApiError(e) ==> !IsValidationError(e) && !IsUploadError(e) && !IsTimeoutError(e)
    ensures IsValidationError(e) ==> !IsUploadError(e) && !IsTimeoutError(e)
    ensures IsUploadError(e) ==> !IsTimeoutError(e)
    ensures e.Other? ==> !IsApiError(e) && !IsValidationError(e) && !IsUploadError(e) && !IsTimeoutError(e)
  {
  }

  function NewApiError(message: string, statusCode: int, code: Option<int>, details: Option<string>): (e: Error)
    ensures IsApiError(e) && !IsValidationError(e) && !IsUploadError(e) && !IsTimeoutError(e)
    ensures Text(e) == message
    ensures e.fields.statusCode == Some(statusCode)
    ensures e.fields.code == code && e.fields.details == details
  {
    Typed(Api, ClientError(message, Some(statusCode), code, details))
  }

  function NewValidationError(message: string, details: Option<string>): (e: Error)
    ensures IsValidationError(e) && !IsApiError(e) && !IsUploadError(e) && !IsTimeoutError(e)
    ensures Text(e) == message
    ensures e.fields.statusCode == Some(400) && e.fields.code == None
    ensures e.fields.details == details
    // the 400 it carries never shows: only API errors are formatted with a status
    ensures FormatError(e) == message
  {
    Typed(Validation, ClientError(message, Some(400), None, details))
  }

  function NewUploadError(message: string, details: Option<string>): (e: Error)
    ensures IsUploadError(e) && !IsApiError(e) && !IsValidationError(e) && !IsTimeoutError(e)
    ensures Text(e) == message && FormatError(e) == message
    ensures e.fields.statusCode == None && e.fields.code == None
    ensures e.fields.details == details
  {
    Typed(Upload, ClientError(message, None, None, details))
  }

  function NewTimeoutError(message: string): (e: Error)
    ensures IsTimeoutError(e) && !IsApiError(e) && !IsValidationError(e) && !IsUploadError(e)
    ensures message != "" ==> Text(e) == message
    ensures message == "" ==> Text(e) == TimeoutDefaultMessage
    ensures Text(e) != ""
    ensures e.fields.statusCode == None && e.fields.code == None && e.fields.details == None
  {
    var m := if message == "" then TimeoutDefaultMessage else message;
    Typed(Timeout, ClientError(m, None, None, None))
  }

  /** `FormatError`: an API error that carries a status is rendered with it,
      every other error is rendered as its own text. */
  function FormatError(e: Error): (s: string)
    ensures !(IsApiError(e) && e.fields.statusCode.Some?) ==> s == Text(e)
    ensures IsApiError(e) && e.fields.statusCode.Some? ==>
              |s| > |ApiPrefix| + |Text(e)| && s[..|ApiPrefix|] == ApiPrefix && s[|s| - |Text(e)|..] == Text(e)
  {
    if IsApiError(e) && e.fields.statusCode.Some? then
      ApiPrefix + Decimal.FormatInt(e.fields.statusCode.value) + ApiSeparator + e.fields.message
    else
      Text(e)
  }

  /** Position of the first `c` in `s`, or `|s|` when there is none. */
  function IndexOf(s: string, c: char): (i: nat)
    ensures i <= |s|
    ensures i < |s| ==> s[i] == c
    ensures forall k :: 0 <= k < i ==> s[k] != c
  {
    if |s| == 0 then 0
    else if s[0] == c then 0
    else 1 + IndexOf(s[1..], c)
  }

  /** Reads a string of the shape "API Error (<status>): <message>" back into
      its status and message. */
  function ParseApiFormat(s: string): Option<(int, string)> {
    if |s| < |ApiPrefix| || s[..|ApiPrefix|] != ApiPrefix then None
    else
      var rest := s[|ApiPrefix|..];
      var j := IndexOf(rest, ')');
      if j + |ApiSeparator| <= |rest| && rest[j..j + |ApiSeparator|] == ApiSeparator then
        match Decimal.ParseInt(rest[..j])
        case Some(n) => Some((n, rest[j + |ApiSeparator|..]))
        case None => None
      else None
  }

  /** In a string that starts with a `c`-free part followed by `c`, the
      first `c` is right after that part. */
  lemma IndexOfAfter(d: string, c: char, m: string)
    requires forall k :: 0 <= k < |d| ==> d[k] != c
    requires |m| > 0 && m[0] == c
    ensures IndexOf(d + m, c) == |d|
  {
    var s := d + m;
    assert s[|d|] == c;
    assert forall k :: 0 <= k < |d| ==> s[k] == d[k];
  }

  /** The first ')' after a closing-paren-free prefix is the separator's. */
  lemma SeparatorFound(d: string, m: string)
    requires forall k :: 0 <= k < |d| ==> d[k] != ')'
    ensures IndexOf(d + ApiSeparator + m, ')') == |d|
  {
    var rest := d + ApiSeparator + m;
    assert rest[|d|] == ')';
    assert forall k :: 0 <= k < |d| ==> rest[k] == d[k];
  }

  /** A prefixed string splits back into the rendered status and the message. */
  lemma {:induction false} ParseApiParts(n: int, m: string)
    ensures ParseApiFormat(ApiPrefix + (Decimal.FormatInt(n) + ApiSeparator + m)) == Some((n, m))
  {
    var d := Decimal.FormatInt(n);
    var rest := d + ApiSeparator + m;
    var s := ApiPrefix + rest;
    assert s[..|ApiPrefix|] == ApiPrefix;
    assert s[|ApiPrefix|..] == rest;
    SeparatorFound(d, m);
    assert rest[..|d|] == d;
    assert rest[|d|..|d| + |ApiSeparator|] == ApiSeparator;
    assert rest[|d| + |ApiSeparator|..] == m;
    Decimal.ParseFormatInt(n);
  }

  /** The formatted form of an API error loses nothing: its status and its
      message can both be read back, whatever the message contains. */
  lemma FormatApiErrorRoundTrip(e: Error)
    requires IsApiError(e) && e.fields.statusCode.Some?
    ensures ParseApiFormat(FormatError(e)) == Some((e.fields.statusCode.value, Text(e)))
  {
    var n := e.fields.statusCode.value;
    assert FormatError(e) == ApiPrefix + (Decimal.FormatInt(n) + ApiSeparator + Text(e));
    ParseApiParts(n, Text(e));
  }

  /** A status-carrying API error made by `NewApiError` formats to a string
      from which the status and message are recovered. */
  lemma NewApiErrorFormats(message: string, statusCode: int, code: Option<int>, details: Option<string>)
    ensures ParseApiFormat(FormatError(NewApiError(message, statusCode, code, details))) == Some((statusCode, message))
  {
    FormatApiErrorRoundTrip(NewApiError(message, statusCode, code, details));
  }
}
