/** The environment settings the core reads, with their defaults. A setting
    is `None` when the variable is unset; the schema's default applies only
    then (an empty value is kept). Numeric coercion of `PORT` is not
    modelled: the setting is given as a number. */
module Env {
  import opened Values
  import opened Strings

  const DefaultCorsOrigins := "*"
  const DefaultEventQueue := "events"
  const DefaultPort := 8080

  /** `CORS_ALLOWED_ORIGINS`: the raw value (default "*") split on ",", with
      no trimming. The list is never empty, has one more entry than the value
      has commas, and joining it with "," gives back the raw value. */
  function CorsAllowedOrigins(raw: Option<string>): (origins: seq<string>)
    ensures |origins| >= 1
    ensures |origins| == Count(raw.GetOr(DefaultCorsOrigins), ',') + 1
    ensures Join(origins, ',') == raw.GetOr(DefaultCorsOrigins)
    ensures forall i :: 0 <= i < |origins| ==> ',' !in origins[i]
  {
    var value := raw.GetOr(DefaultCorsOrigins);
    JoinSplit(value, ',');
    SplitCount(value, ',');
    Split(value, ',')
  }

  /** Unset, the origin list is the single wildcard. */
  lemma DefaultOriginsIsWildcard()
    ensures CorsAllowedOrigins(None) == ["*"]
  {
    assert Split("*", ',') == [['*'] + Split("", ',')[0]] + Split("", ',')[1..];
  }

  /** The `EVENT_QUEUE` setting as the environment schema reads it. The
      code that pushes events, which is not part of this model, falls back
      to "events" once more when the setting is empty, so an empty setting
      is not the queue the events go to. */
  function EventQueue(raw: Option<string>): (name: string)
    ensures raw.None? ==> name == "events"
    ensures raw.Some? ==> name == raw.value
  {
    raw.GetOr(DefaultEventQueue)
  }

  /** `PORT`: the port the server listens on. */
  function Port(raw: Option<int>): (port: int)
    ensures raw.None? ==> port == 8080
    ensures raw.Some? ==> port == raw.value
  {
    raw.GetOr(DefaultPort)
  }
}

/** The CORS origin rule: a request with no (or an empty) Origin is allowed,
    every origin is allowed when the list holds "*", an origin equal to an
    entry is allowed, and any other origin is refused with an error that
    names it. */
module Cors {
  import opened Values
  import Env

  datatype Decision = Allow | Deny(error: string)

  /** The error the rule reports for an origin it refuses. */
  function DenyMessage(origin: string): string
  {
    "Origin '" + origin + "' not allowed by CORS policy"
  }

  /** `corsConfig.origin`, given the request's Origin header (absent is
      `None`) and the configured list. */
  function CheckOrigin(origin: Option<string>, allowed: seq<string>): (d: Decision)
    ensures d.Allow? <==> origin.None? || origin.value == "" || "*" in allowed || origin.value in allowed
    ensures d.Deny? ==> d.error == DenyMessage(origin.value)
  {
    if origin.None? || !Truthy(origin.value) then Allow
    else if "*" in allowed then Allow
    else if origin.value in allowed then Allow
    else Deny(DenyMessage(origin.value))
  }

  /** Adding entries to the list never refuses an origin it allowed. */
  lemma WideningKeepsAllowed(origin: Option<string>, allowed: seq<string>, more: seq<string>)
    ensures CheckOrigin(origin, allowed).Allow? ==> CheckOrigin(origin, allowed + more).Allow?
    ensures CheckOrigin(origin, allowed).Allow? ==> CheckOrigin(origin, more + allowed).Allow?
  {
  }

  /** With `CORS_ALLOWED_ORIGINS` unset, every origin is allowed. */
  lemma DefaultConfigAllowsEveryOrigin(origin: Option<string>)
    ensures CheckOrigin(origin, Env.CorsAllowedOrigins(None)) == Allow
  {
    Env.DefaultOriginsIsWildcard();
  }
}
