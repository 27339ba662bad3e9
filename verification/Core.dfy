/** Protocols and error kinds shared by every component (`refract-core`), and helpers for numbers and composed keys. */
module Core {
  import opened Wrappers

  /** How many values an unsigned integer of the width has; where it wraps. */
  const U32: nat := 0x1_0000_0000
  const U64: nat := 0x1_0000_0000_0000_0000

  /** The largest `u64`, at which counters saturate. */
  const U64_MAX: nat := U64 - 1

  function SaturatingAdd(a: nat, b: nat): nat {
    if a + b > U64_MAX then U64_MAX else a + b
  }

  function Max(a: nat, b: nat): nat {
    if a < b then b else a
  }

  function Min(a: nat, b: nat): nat {
    if a < b then a else b
  }

  /** A composed key has one reading up to its first separator. */
  lemma CutAtFirst(separator: char, a: string, b: string, c: string, d: string)
    requires separator !in a && separator !in c
    requires a + [separator] + b == c + [separator] + d
    ensures a == c && b == d
  {
    var s := a + [separator] + b;
    assert s[|a|] == separator && s[|c|] == separator;
    assert forall i :: 0 <= i < |a| ==> s[i] == a[i];
    assert forall i :: 0 <= i < |c| ==> s[i] == c[i];
    assert a == s[..|a|] && b == s[|a| + 1..];
    assert c == s[..|c|] && d == s[|c| + 1..];
  }

  type ChannelId = int

  datatype Protocol = Chat | Responses | Messages | Gemini

  datatype ErrorKind =
    | InvalidRequest
    | Unauthenticated
    | PermissionDenied
    | NotFound
    | PayloadTooLarge
    | RateLimited
    | UpstreamError
    | InvalidUpstreamResponse
    | NoAvailableChannel
    | Timeout
    | TranscodeNotPermitted
    | TranscodeFailed
    | Configuration
    | Internal
  {
    /** The HTTP status the kind is logged and rendered with. */
    function Status(): (s: nat)
      ensures 400 <= s < 600 && s != 499
    {
      match this
      case InvalidRequest | TranscodeNotPermitted => 400
      case Unauthenticated => 401
      case PermissionDenied => 403
      case NotFound => 404
      case PayloadTooLarge => 413
      case RateLimited => 429
      case Internal | TranscodeFailed | Configuration | InvalidUpstreamResponse => 500
      case UpstreamError => 502
      case NoAvailableChannel => 503
      case Timeout => 504
    }

    /** Whether the failure is about the API key itself, so that another key may succeed. */
    predicate IsKeyFailure() {
      Unauthenticated? || PermissionDenied? || RateLimited?
    }
  }

  datatype GatewayError = GatewayError(kind: ErrorKind, message: string, retryAfter: Option<nat> := None)
}
