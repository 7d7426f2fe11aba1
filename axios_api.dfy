/** The request interceptor of the client's Axios instance. */
module AxiosApi {
  import opened Wrappers
  import opened ClientSession

  const AuthorizationHeader := "Authorization"

  /** An outgoing request's configuration; its headers are changed in place. */
  class RequestConfig {
    var headers: map<string, string>

    constructor(headers: map<string, string>)
      ensures this.headers == headers
    {
      this.headers := headers;
    }
  }

  /** `if (jwtToken) config.headers.set('Authorization', 'Bearer ' + jwtToken)`. */
  function WithAuthorization(headers: map<string, string>, token: Option<string>): (r: map<string, string>)
    ensures token.Some? && token.value != "" ==> AuthorizationHeader in r && r[AuthorizationHeader] == "Bearer " + token.value
    ensures token.None? || token.value == "" ==> r == headers
    ensures forall k :: k != AuthorizationHeader ==> (k in r <==> k in headers)
    ensures forall k :: k in r && k != AuthorizationHeader ==> r[k] == headers[k]
  {
    if token.Some? && token.value != "" then headers[AuthorizationHeader := "Bearer " + token.value] else headers
  }

  /** The interceptor hands back the very object it received, with the header set from
      the stored token. */
  method Intercept(client: Client, config: RequestConfig) returns (r: RequestConfig)
    modifies config
    ensures r == config
    ensures config.headers == WithAuthorization(old(config.headers), client.Token())
  {
    var token := client.Token();
    if token.Some? && token.value != "" {
      config.headers := config.headers[AuthorizationHeader := "Bearer " + token.value];
    }
    r := config;
  }
}
