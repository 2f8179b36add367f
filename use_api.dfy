/** The request client the pages share (components/useApi.jsx): a client bound to the API base
    URL whose interceptor adds `Authorization: Bearer <token>` while a token is held. The
    client is rebuilt only when the stored access token changes. */
module UseApi {
  import opened Base

  const BaseUrl := "http://localhost:8000/api/"
  const AuthorizationHeader := "Authorization"

  /** A response settles the request's promise exactly when its status is 2xx (the client's
      default `validateStatus`); any other status rejects it like a network error. */
  predicate Resolves(status: int)
  {
    200 <= status < 300
  }

  /** The parts of an outgoing request config the interceptor looks at. */
  datatype Config = Config(url: string, headers: map<string, string>)

  /** The request interceptor for a client created while `token` was stored. */
  function Intercept(token: Option<string>, config: Config): (r: Config)
    ensures r.url == config.url
    ensures TruthyString(token) ==> r.headers == config.headers[AuthorizationHeader := "Bearer " + token.value]
    ensures !TruthyString(token) ==> r == config
    ensures forall h :: h != AuthorizationHeader ==> (h in r.headers <==> h in config.headers)
    ensures forall h :: h != AuthorizationHeader && h in config.headers ==> r.headers[h] == config.headers[h]
  {
    if TruthyString(token) then config.(headers := config.headers[AuthorizationHeader := "Bearer " + token.value])
    else config
  }

  /** A client instance: its base URL and the token its interceptor closed over. */
  class Client {
    const baseUrl: string
    const token: Option<string>

    constructor (token: Option<string>)
      ensures baseUrl == BaseUrl && this.token == token
    {
      baseUrl := BaseUrl;
      this.token := token;
    }

    /** What the interceptor hands on for a request made through this client: the request
        carries the bearer header of this client's own token while that token is truthy, and
        goes out untouched otherwise. */
    function Prepare(config: Config): (r: Config)
      ensures r.url == config.url
      ensures TruthyString(token) ==> r.headers == config.headers[AuthorizationHeader := "Bearer " + token.value]
      ensures !TruthyString(token) ==> r == config
    {
      Intercept(token, config)
    }
  }

  /** The hook's memo: the token of the last render and the client built for it. */
  class Hook {
    var token: Option<string>
    var client: Client
    var builds: nat

    constructor (token: Option<string>)
      ensures this.token == token && client.token == token && client.baseUrl == BaseUrl && builds == 1
      ensures fresh(client)
    {
      this.token := token;
      client := new Client(token);
      builds := 1;
    }

    /** One render of `useApi` with the stored token `t`: the memo returns the cached client
        unless the token differs from the last render's. */
    method Use(t: Option<string>) returns (c: Client)
      requires client.token == token
      modifies this
      ensures c == client && token == t && c.token == t && c.baseUrl == (if t == old(token) then old(client.baseUrl) else BaseUrl)
      ensures t == old(token) ==> c == old(client) && builds == old(builds)
      ensures t != old(token) ==> fresh(c) && builds == old(builds) + 1
    {
      if t != token {
        client := new Client(t);
        token := t;
        builds := builds + 1;
      }
      c := client;
    }
  }
}
