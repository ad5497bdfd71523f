/** Names shared by the request and response sides of the server: request
    methods and the parse status a request advances through. */
module Http {
  import opened Wrappers

  /** The request method; a fresh request holds Undefined. */
  datatype Method = Undefined | Get | Post | Delete

  /** The parse status: New -> FullHeader -> FullBody, and Invalid from any. */
  datatype RqStatus = New | FullHeader | FullBody | Invalid

  /** The method's name as the CGI environment spells it; Undefined has no
      entry in that table and reads as the empty string. */
  function MethodName(m: Method): (name: string)
    ensures m != Undefined <==> name != []
    ensures ' ' !in name
  {
    match m
    case Undefined => ""
    case Get => "GET"
    case Post => "POST"
    case Delete => "DELETE"
  }

  /** Request::methods: the method a request-line token names, if any. */
  function MethodFromName(name: string): (r: Option<Method>)
    ensures r.Some? ==> r.value != Undefined && MethodName(r.value) == name
    ensures r.None? ==> forall m: Method :: m != Undefined ==> MethodName(m) != name
  {
    if name == "GET" then Some(Get)
    else if name == "POST" then Some(Post)
    else if name == "DELETE" then Some(Delete)
    else None
  }
}
