/**
 * The request the accessory sends on every open, and the body/header
 * normalisation `fetchRequest` applies to it before handing it to `fetch`.
 *
 * The configured request object is shared: `fetchRequest` rewrites it in
 * place, so the rewrite persists into every later open.
 */
module Requests {
  import opened Wrappers
  import opened Json

  /** A header set: header name (case-sensitive key) to its configured value. */
  type Headers = map<string, Json>

  const ContentType: string := "Content-Type"
  const ApplicationJson: Json := JStr("application/json")

  /** `request.options`: the second argument of `fetch` (`verb` is its `method` entry). A `None` body is `undefined`. */
  datatype Options = Options(verb: Option<string>, headers: Option<Headers>, body: Option<Json>)

  /**
   * A snapshot of the request object: `url`, `options` (absent when the
   * configuration gives none) and the request-level `headers` entry.
   */
  datatype RequestValue = RequestValue(url: string, options: Option<Options>, headers: Option<Headers>)

  /** The arguments `fetch(request.url, request.options)` is called with. */
  datatype FetchCall = FetchCall(url: string, options: Option<Options>)

  /** `typeof request.options?.body === 'object'`. */
  predicate HasObjectBody(r: RequestValue)
    // `typeof` of an undefined body is 'undefined', of a string 'string'
    ensures r.options.None? || r.options.value.body.None? ==> !HasObjectBody(r)
    ensures r.options.Some? && r.options.value.body.Some? && r.options.value.body.value.JStr? ==> !HasObjectBody(r)
    // null, arrays and objects are all 'object'
    ensures r.options.Some? && r.options.value.body == Some(JNull) ==> HasObjectBody(r)
  {
    r.options.Some? && r.options.value.body.Some? && IsObjectTyped(r.options.value.body.value)
  }

  /** `request.headers || {}` */
  function HeadersOrEmpty(h: Option<Headers>): (m: Headers) {
    if h.Some? then h.value else map[]
  }

  /**
   * The request after `fetchRequest`'s rewrite: an object-typed body becomes
   * its JSON text and `Content-Type: application/json` is merged into the
   * request-level headers; any other request is left as it is.
   */
  function Normalize(r: RequestValue): (n: RequestValue)
    // the url and the options' own method and headers are never touched
    ensures n.url == r.url
    ensures n.options.Some? <==> r.options.Some?
    ensures n.options.Some? ==>
              n.options.value.verb == r.options.value.verb
              && n.options.value.headers == r.options.value.headers
    // afterwards no body is object-typed any more
    ensures !HasObjectBody(n)
    // an object body is replaced by its serialisation
    ensures HasObjectBody(r) ==>
              n.options.value.body == Some(JStr(Stringify(r.options.value.body.value)))
    // and the request headers gain Content-Type while keeping every other entry
    ensures HasObjectBody(r) ==>
              n.headers.Some?
              && n.headers.value.Keys == HeadersOrEmpty(r.headers).Keys + {ContentType}
              && n.headers.value[ContentType] == ApplicationJson
              && forall k :: k in HeadersOrEmpty(r.headers) && k != ContentType ==>
                               n.headers.value[k] == HeadersOrEmpty(r.headers)[k]
    // a string, other primitive or absent body leaves the request unchanged
    ensures !HasObjectBody(r) ==> n == r
  {
    if HasObjectBody(r) then
      var opts := r.options.value;
      r.(options := Some(opts.(body := Some(JStr(Stringify(opts.body.value))))),
         headers := Some(HeadersOrEmpty(r.headers)[ContentType := ApplicationJson]))
    else
      r
  }

  /** Normalising a second time changes nothing. */
  lemma NormalizeIdempotent(r: RequestValue)
    ensures Normalize(Normalize(r)) == Normalize(r)
  {
  }

  /**
   * What `fetch` receives is `request.options` alone: the url and options of
   * the normalised request, whose option headers are the configured ones.
   * The Content-Type entry merged into the request-level headers is not part
   * of it.
   */
  lemma SentOptionsKeepConfiguredHeaders(r: RequestValue)
    requires r.options.Some?
    ensures var call := FetchCall(Normalize(r).url, Normalize(r).options);
            call.url == r.url
            && call.options.Some?
            && call.options.value.headers == r.options.value.headers
  {
  }

  /** The shared, mutable request object of the accessory's configuration. */
  class Request {
    var url: string
    var options: Option<Options>
    var headers: Option<Headers>

    constructor (url: string, options: Option<Options>, headers: Option<Headers>)
      ensures Value() == RequestValue(url, options, headers)
    {
      this.url := url;
      this.options := options;
      this.headers := headers;
    }

    function Value(): (v: RequestValue)
      reads this
    {
      RequestValue(url, options, headers)
    }
  }

  /**
   * `fetchRequest(request)` up to the network call: rewrites `request` in
   * place and returns the arguments passed to `fetch`.
   */
  method FetchRequest(request: Request) returns (call: FetchCall)
    modifies request
    ensures request.Value() == Normalize(old(request.Value()))
    ensures call == FetchCall(request.url, request.options)
    // fetch gets the configured url and option headers; request.headers is not sent
    ensures call.url == old(request.url)
    ensures call.options.Some? <==> old(request.options).Some?
    ensures call.options.Some? ==> call.options.value.headers == old(request.options).value.headers
  {
    if HasObjectBody(request.Value()) {
      var opts := request.options.value;
      request.options := Some(opts.(body := Some(JStr(Stringify(opts.body.value)))));
      request.headers := Some(HeadersOrEmpty(request.headers)[ContentType := ApplicationJson]);
    }
    call := FetchCall(request.url, request.options);
  }
}
