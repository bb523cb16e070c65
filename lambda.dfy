/**
 * What the three AppSync Lambda resolvers share: the tenant taken from the
 * caller's identity claims, and the reply conventions of their `switch`
 * dispatchers (the result as it is, the "Unknown field" string, and the
 * `{statusCode, body}` object built when an error reaches the outer `catch`).
 */
module Lambda {
  import opened Wrappers
  import opened Text
  import opened Js

  const TenantClaim: string := "custom:tenantId"

  /**
   * `event.identity.claims['custom:tenantId'] || ''`. The empty string means
   * single-tenant mode, in which no tenant scoping is applied.
   */
  function TenantOf(claims: map<string, string>): (tenantId: string)
    ensures TenantClaim in claims ==> tenantId == claims[TenantClaim]
    ensures TenantClaim !in claims ==> tenantId == ""
  {
    if TenantClaim in claims then claims[TenantClaim] else ""
  }

  /** `event.arguments.<name>`: a TypeError when `arguments` is null or undefined. */
  function Argument(arguments: JsValue, name: string): (r: Attempt<JsValue>)
    ensures r.Threw? <==> Nullish(arguments)
    ensures r.Threw? ==> r.message == ReadOfNullish(arguments, name)
    ensures r.Returned? ==> r.value == Member(arguments, name)
    ensures arguments.Obj? ==> r == Returned(Lookup(arguments.fields, name))
  {
    if Nullish(arguments) then Threw(ReadOfNullish(arguments, name)) else Returned(Member(arguments, name))
  }

  /** An ECR resource tag. */
  datatype Tag = Tag(key: string, value: string)

  /** What a handler hands back to AppSync. */
  datatype Reply<T> =
    | Resolved(value: T)                   // the operation's own result
    | Unresolved(message: string)          // the string returned for a field no case matches
    | Envelope(statusCode: int, body: string)

  /**
   * What a helper of the form `try { return await client.send(c) } catch (error) { return error }`
   * gives back: the SDK response, or the caught error as a value (never a throw).
   */
  datatype Outcome = Value(response: JsValue) | ErrorObject(message: string)

  function Settled(a: Attempt<JsValue>): (r: Outcome)
    ensures a.Returned? <==> r.Value?
    ensures a.Returned? ==> r.response == a.value
    ensures a.Threw? ==> r.message == a.message
  {
    match a
    case Returned(v) => Value(v)
    case Threw(m) => ErrorObject(m)
  }

  function UnknownField(field: string): (message: string)
    ensures |message| > |field|
    ensures message[|message| - |field|..] == field
  {
    "Unknown field, unable to resolve " + field
  }

  /**
   * The outer `catch`: an error with a (truthy) message becomes a 403 whose
   * body is the JSON text of the message; otherwise control falls out of the
   * `try` to the 200 reply whose body is the serialized request.
   */
  function Caught<T>(message: string, requestJson: string): (r: Reply<T>)
    ensures message != "" ==> r.Envelope? && r.statusCode == 403 && Unquote(r.body) == Some(message)
    ensures message == "" ==> r == Envelope(200, requestJson)
  {
    JsonRoundTrip(message);
    if message != "" then Envelope(403, JsonQuote(message)) else Envelope(200, requestJson)
  }

  /** The example of a handler throwing `new Error("boom")`. */
  lemma CaughtBoom<T>(requestJson: string)
    ensures Caught<T>("boom", requestJson) == Envelope(403, "\"boom\"")
  {
  }
}
