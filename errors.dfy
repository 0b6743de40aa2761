/** The text of each error value, as Go's `Error()` method gives it. */
module Errors {

  import opened Common
  import opened Strconv

  /** `err.Error()` for the errors the model produces. The OS errors are the
      texts of a failed open. */
  function ErrorText(e: Error): string {
    match e
    case UnknownItemType => "Unknown ItemType"
    case UnknownMimeType => "Unknown Mime Type"
    case DuplicateItem(hash) => "Duplicate Item: " + hash
    case NotExist(path) => "open " + path + ": no such file or directory"
    case PermissionDenied(path) => "open " + path + ": permission denied"
    case Eof => "EOF"
    case UnexpectedEof => "unexpected EOF"
    case ReadFailed(reason) => reason
    case DecodeFailed(what) => what
    case IndexFailed(reason) => reason
    case Message(text) => text
    case Api(code, err, msg) => ApiErrorText(code, err, msg)
    case TypeError(text) => text
    case Thrown(text) => text
    case Panic(reason) => "runtime error: " + reason
  }

  /** `(*ApiError).Error`. */
  function ApiErrorText(code: int, err: string, msg: string): string {
    "API Error [" + Itoa(code) + "](" + err + ") " + msg
  }

  lemma CancelSuffix(a: string, b: string, r: string)
    requires a + r == b + r
    ensures a == b
  {
    assert |a| == |b|;
    assert a == (a + r)[..|a|];
    assert b == (b + r)[..|b|];
  }

  lemma CancelPrefix(p: string, a: string, b: string)
    requires p + a == p + b
    ensures a == b
  {
    assert a == (p + a)[|p|..];
    assert b == (p + b)[|p|..];
  }

  /** Two API errors with the same text are the same error (the code is
      printed in full). */
  lemma ApiErrorTextInjective(c1: int, c2: int, e: string, m: string)
    requires MinInt64 <= c1 <= MaxInt64 && MinInt64 <= c2 <= MaxInt64
    requires ApiErrorText(c1, e, m) == ApiErrorText(c2, e, m)
    ensures c1 == c2
  {
    var t1, t2 := Itoa(c1), Itoa(c2);
    CancelSuffix("API Error [" + t1 + "](" + e + ") ", "API Error [" + t2 + "](" + e + ") ", m);
    CancelSuffix("API Error [" + t1 + "](" + e, "API Error [" + t2 + "](" + e, ") ");
    CancelSuffix("API Error [" + t1 + "](", "API Error [" + t2 + "](", e);
    CancelSuffix("API Error [" + t1, "API Error [" + t2, "](");
    CancelPrefix("API Error [", t1, t2);
    ItoaInjective(c1, c2);
  }
}
