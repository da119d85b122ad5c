/**
 * The request handler passed to `createServer`: OPTIONS short-cut, the `/api/clients` prefix
 * test, splitting off and parsing the query string, choosing the repository operation from the
 * method and the path, and turning its result or the error it throws into a response.
 */
module Router {
  import opened Wrappers
  import opened JsValue
  import opened ApiErrors
  import opened Validator
  import opened Repository

  const URI_PREFIX := "/api/clients"

  /** `/api/clients` or `/api/clients/` (the collection), or `/api/clients/{id}` (one client). */
  datatype Target = Collection | Item(itemId: string)

  /** The first decisions of the handler, before any repository call. */
  datatype Route =
    | Preflight
    | OutsidePrefix
    | Api(target: Target, query: string)

  /**
   * Route selection: OPTIONS before anything else; a url without the prefix is outside the API;
   * otherwise the rest of the url is split at `?` into the path (`uri`) and the query, and a
   * path of `''` or `'/'` names the collection while any other names the item `uri.substr(1)`.
   * An absent query and an empty one are both the empty string.
   */
  function RouteRequest(httpMethod: string, url: string): (r: Route)
    ensures r == Preflight <==> httpMethod == "OPTIONS"
    ensures r == OutsidePrefix <==> httpMethod != "OPTIONS" && !(URI_PREFIX <= url)
    ensures r.Api? ==> '?' !in r.query
  {
    if httpMethod == "OPTIONS" then
      Preflight
    else if url == "" || !(URI_PREFIX <= url) then
      OutsidePrefix
    else
      var parts := Split(url[|URI_PREFIX|..], '?');
      var uri := parts[0];
      var query := if |parts| > 1 then parts[1] else "";
      Api(if uri == "" || uri == "/" then Collection else Item(uri[1..]), query)
  }

  /** The url of an item, `Location` header included, routes back to that item with its query. */
  lemma ItemUrlRoundTrip(httpMethod: string, itemId: string, query: string)
    requires httpMethod != "OPTIONS"
    requires itemId != "" && '?' !in itemId && '?' !in query
    ensures RouteRequest(httpMethod, URI_PREFIX + "/" + itemId + (if query == "" then "" else "?" + query))
         == Api(Item(itemId), query)
  {
    var path := "/" + itemId;
    var url := URI_PREFIX + "/" + itemId + (if query == "" then "" else "?" + query);
    assert URI_PREFIX <= url;
    assert '?' !in path by {
      assert forall k :: 0 < k < |path| ==> path[k] == itemId[k - 1];
    }
    var rest := url[|URI_PREFIX|..];
    assert rest == path + (if query == "" then "" else "?" + query);
    if query == "" {
      assert rest == path;
      SplitWithoutSeparator(path, '?');
      assert Split(rest, '?') == [path];
    } else {
      assert rest == Join([path, query], '?');
      SplitJoin([path, query], '?');
      assert Split(rest, '?') == [path, query];
    }
    assert |path| >= 2 && path != "/";
    assert path[1..] == itemId;
  }

  /** The collection url, with or without a trailing `/`, routes to the collection. */
  lemma CollectionUrlRoutes(httpMethod: string, query: string)
    requires httpMethod != "OPTIONS"
    requires '?' !in query
    ensures RouteRequest(httpMethod, URI_PREFIX + (if query == "" then "" else "?" + query)) == Api(Collection, query)
    ensures RouteRequest(httpMethod, URI_PREFIX + "/" + (if query == "" then "" else "?" + query)) == Api(Collection, query)
  {
    CollectionPathRoutes(httpMethod, "", query);
    CollectionPathRoutes(httpMethod, "/", query);
  }

  /** The collection url with path `""` or `"/"`, with or without a query, routes to the collection. */
  lemma CollectionPathRoutes(httpMethod: string, path: string, query: string)
    requires httpMethod != "OPTIONS"
    requires path == "" || path == "/"
    requires '?' !in query
    ensures RouteRequest(httpMethod, URI_PREFIX + path + (if query == "" then "" else "?" + query)) == Api(Collection, query)
  {
    var url := URI_PREFIX + path + (if query == "" then "" else "?" + query);
    assert URI_PREFIX <= url;
    var rest := url[|URI_PREFIX|..];
    assert rest == path + (if query == "" then "" else "?" + query);
    if query == "" {
      assert rest == path;
      SplitWithoutSeparator(path, '?');
    } else {
      assert rest == Join([path, query], '?');
      SplitJoin([path, query], '?');
    }
  }

  // ------------------------------------------------------------------ the query string

  /** `const [key, value] = piece.split('=')`: the text before the first `=`. */
  function KeyOf(piece: string): string {
    Split(piece, '=')[0]
  }

  /**
   * `value ? decodeURIComponent(value) : ''`, where `value` is the text between the first and the
   * second `=` (anything after a second `=` is dropped); `decode` stands for `decodeURIComponent`.
   */
  function ValueOf(piece: string, decode: string -> string): string {
    var parts := Split(piece, '=');
    if |parts| > 1 && parts[1] != "" then decode(parts[1]) else ""
  }

  /** The dictionary after storing the pieces one by one, later ones overwriting earlier ones. */
  function Collect(pieces: seq<string>, decode: string -> string): map<string, string>
    decreases |pieces|
  {
    if |pieces| == 0 then map[]
    else Collect(pieces[..|pieces| - 1], decode)[KeyOf(pieces[|pieces| - 1]) := ValueOf(pieces[|pieces| - 1], decode)]
  }

  /** `queryParams`: nothing when the query is absent or empty, else the `&`-separated pieces collected. */
  function QueryParams(query: string, decode: string -> string): map<string, string> {
    if query == "" then map[] else Collect(Split(query, '&'), decode)
  }

  /** No later piece has the same key as piece `i`. */
  predicate LastWithKey(pieces: seq<string>, i: int)
    requires 0 <= i < |pieces|
  {
    forall j :: i < j < |pieces| ==> KeyOf(pieces[j]) != KeyOf(pieces[i])
  }

  /** The keys of the dictionary are exactly the keys of the pieces. */
  lemma {:induction false} CollectKeys(pieces: seq<string>, decode: string -> string)
    ensures forall k :: k in Collect(pieces, decode) <==> exists i :: 0 <= i < |pieces| && KeyOf(pieces[i]) == k
    decreases |pieces|
  {
    if |pieces| > 0 {
      var n := |pieces| - 1;
      var init := pieces[..n];
      CollectKeys(init, decode);
      assert forall i :: 0 <= i < n ==> init[i] == pieces[i];
      forall k | k in Collect(pieces, decode)
        ensures exists i :: 0 <= i < |pieces| && KeyOf(pieces[i]) == k
      {
        if k != KeyOf(pieces[n]) {
          assert k in Collect(init, decode);
          var i :| 0 <= i < n && KeyOf(init[i]) == k;
          assert KeyOf(pieces[i]) == k;
        }
      }
    }
  }

  /** Each key has the value of the last piece with that key. */
  lemma {:induction false} CollectLastWins(pieces: seq<string>, decode: string -> string)
    ensures forall i :: 0 <= i < |pieces| && LastWithKey(pieces, i) ==>
      KeyOf(pieces[i]) in Collect(pieces, decode) && Collect(pieces, decode)[KeyOf(pieces[i])] == ValueOf(pieces[i], decode)
    decreases |pieces|
  {
    if |pieces| > 0 {
      var n := |pieces| - 1;
      var init := pieces[..n];
      CollectLastWins(init, decode);
      forall i | 0 <= i < |pieces| && LastWithKey(pieces, i)
        ensures KeyOf(pieces[i]) in Collect(pieces, decode) && Collect(pieces, decode)[KeyOf(pieces[i])] == ValueOf(pieces[i], decode)
      {
        if i < n {
          assert init[i] == pieces[i];
          assert KeyOf(pieces[n]) != KeyOf(pieces[i]);
          assert LastWithKey(init, i) by {
            forall j | i < j < n ensures KeyOf(init[j]) != KeyOf(init[i]) {
              assert init[j] == pieces[j];
            }
          }
        }
      }
    }
  }

  /** A piece without `=` is a key with the empty value; `key=value` splits at the `=`. */
  lemma PieceKeyValue(key: string, value: string, decode: string -> string)
    requires '=' !in key && '=' !in value
    ensures KeyOf(key) == key && ValueOf(key, decode) == ""
    ensures KeyOf(key + "=" + value) == key
    ensures ValueOf(key + "=" + value, decode) == if value == "" then "" else decode(value)
  {
    SplitWithoutSeparator(key, '=');
    assert key + "=" + value == Join([key, value], '=');
    SplitJoin([key, value], '=');
  }

  /** The `for (const piece of query.split('&'))` loop filling `queryParams`. */
  method ParseQuery(query: string, decode: string -> string) returns (params: map<string, string>)
    ensures params == QueryParams(query, decode)
  {
    params := map[];
    if query != "" {
      var pieces := Split(query, '&');
      for n := 0 to |pieces|
        invariant params == Collect(pieces[..n], decode)
      {
        var parts := Split(pieces[n], '=');
        var key := parts[0];
        var value := if |parts| > 1 then Some(parts[1]) else None;
        assert key == KeyOf(pieces[n]);
        assert (if value.Some? && value.value != "" then decode(value.value) else "") == ValueOf(pieces[n], decode);
        assert Collect(pieces[..n + 1], decode) == Collect(pieces[..n], decode)[KeyOf(pieces[n]) := ValueOf(pieces[n], decode)] by {
          assert pieces[..n + 1][..n] == pieces[..n];
          assert pieces[..n + 1][n] == pieces[n];
        }
        params := params[key := if value.Some? && value.value != "" then decode(value.value) else ""];
      }
      assert pieces[..|pieces|] == pieces;
    }
  }

  // ------------------------------------------------------------------ responses

  /** The JSON written with `res.end(...)`; `NoBody` is the bare `res.end()` of OPTIONS. */
  datatype Body =
    | NoBody
    | JsonNull
    | ClientList(clients: seq<Client>)
    | OneClient(client: Client)
    | EmptyObject
    | ErrorBody(data: ErrorData)

  datatype Response = Response(status: nat, body: Body, location: Option<string>)

  /**
   * `Crash`: the request body was not JSON, so `JSON.parse` threw inside the stream's `end`
   * listener, outside both the promise and the `try`. Nothing catches that exception, and Node
   * ends the whole server process on an uncaught exception: this request gets no reply and no
   * later request is served. The database file is as it was, because the body is read before
   * any record is created or patched.
   */
  datatype Reply = Answer(response: Response) | Crash

  /** A request: method, url, and the request body as `JSON.parse` reads it (`None` when it is not JSON). */
  datatype Request = Request(httpMethod: string, url: string, body: Option<Raw>)

  /** The reply to a request together with the collection it leaves behind. */
  datatype Exchange = Exchange(reply: Reply, clients: seq<Client>)

  const NOT_FOUND := Response(404, ErrorBody(Message("Not Found")), None)
  const SERVER_ERROR := Response(500, ErrorBody(Message("Server Error")), None)

  /** The `catch` block: an `ApiError` keeps its status code and data, anything else becomes 500. */
  function ErrorResponse(e: Failure): (r: Response)
    ensures e.ApiError? ==> r.status == e.statusCode && r.body == ErrorBody(e.data)
    ensures !e.ApiError? ==> r == SERVER_ERROR
    ensures r.location == None
  {
    match e
    case ApiError(code, data) => Response(code, ErrorBody(data), None)
    case Unexpected => SERVER_ERROR
  }

  /** The whole handler for one request against the collection `clients`; `id` and `now` are the clock readings. */
  function Serve(req: Request, clients: seq<Client>, id: string, now: string, decode: string -> string): Exchange {
    match RouteRequest(req.httpMethod, req.url)
    case Preflight => Exchange(Answer(Response(200, NoBody, None)), clients)
    case OutsidePrefix => Exchange(Answer(NOT_FOUND), clients)
    case Api(Collection, query) => ServeCollection(req, QueryParams(query, decode), clients, id, now)
    case Api(Item(itemId), _) => ServeItem(req, itemId, clients, now)
  }

  /** `/api/clients`: GET lists, POST creates (201 and `Location`), any other method gets `null`. */
  function ServeCollection(req: Request, params: map<string, string>, clients: seq<Client>, id: string, now: string): (ex: Exchange)
    ensures ex.clients == if req.httpMethod == "POST" && req.body.Some? then Create(clients, req.body.value, id, now).clients else clients
  {
    if req.httpMethod == "GET" then
      Exchange(Answer(Response(200, ClientList(GetClientList(clients, params)), None)), clients)
    else if req.httpMethod == "POST" then
      if req.body.None? then Exchange(Crash, clients)
      else
        var st := Create(clients, req.body.value, id, now);
        match st.result
        case Success(c) => Exchange(Answer(Response(201, OneClient(c), Some(URI_PREFIX + "/" + c.id))), st.clients)
        case Failure(e) => Exchange(Answer(ErrorResponse(e)), st.clients)
    else
      Exchange(Answer(Response(200, JsonNull, None)), clients)
  }

  /** `/api/clients/{id}`: GET reads, PATCH updates, DELETE removes, any other method gets `null`. */
  function ServeItem(req: Request, itemId: string, clients: seq<Client>, now: string): (ex: Exchange)
    ensures ex.clients ==
      if req.httpMethod == "PATCH" && req.body.Some? then Update(clients, itemId, req.body.value, now).clients
      else if req.httpMethod == "DELETE" then Delete(clients, itemId).clients
      else clients
  {
    if req.httpMethod == "GET" then
      match GetClient(clients, itemId)
      case Success(c) => Exchange(Answer(Response(200, OneClient(c), None)), clients)
      case Failure(e) => Exchange(Answer(ErrorResponse(e)), clients)
    else if req.httpMethod == "PATCH" then
      if req.body.None? then Exchange(Crash, clients)
      else
        var st := Update(clients, itemId, req.body.value, now);
        match st.result
        case Success(c) => Exchange(Answer(Response(200, OneClient(c), None)), st.clients)
        case Failure(e) => Exchange(Answer(ErrorResponse(e)), st.clients)
    else if req.httpMethod == "DELETE" then
      var st := Delete(clients, itemId);
      match st.result
      case Success(_) => Exchange(Answer(Response(200, EmptyObject, None)), st.clients)
      case Failure(e) => Exchange(Answer(ErrorResponse(e)), st.clients)
    else
      Exchange(Answer(Response(200, JsonNull, None)), clients)
  }

  // ------------------------------------------------------------------ properties of the handler

  /** OPTIONS is answered with an empty 200 before any routing, whatever the url. */
  lemma OptionsAnsweredFirst(req: Request, clients: seq<Client>, id: string, now: string, decode: string -> string)
    requires req.httpMethod == "OPTIONS"
    ensures Serve(req, clients, id, now, decode) == Exchange(Answer(Response(200, NoBody, None)), clients)
  {
  }

  /** Any other method on a url outside `/api/clients` gets 404 `{ message: 'Not Found' }`. */
  lemma OutsidePrefixIsNotFound(req: Request, clients: seq<Client>, id: string, now: string, decode: string -> string)
    requires req.httpMethod != "OPTIONS" && !(URI_PREFIX <= req.url)
    ensures Serve(req, clients, id, now, decode) == Exchange(Answer(NOT_FOUND), clients)
  {
  }

  /** Only POST, PATCH and DELETE change the collection. */
  lemma OnlyWritesChangeStore(req: Request, clients: seq<Client>, id: string, now: string, decode: string -> string)
    requires req.httpMethod != "POST" && req.httpMethod != "PATCH" && req.httpMethod != "DELETE"
    ensures Serve(req, clients, id, now, decode).clients == clients
  {
  }

  /**
   * The handler answers only with 200, 201, 404, 422 or 500 (500 exactly for an error that is not
   * an `ApiError`). The only other outcome is the crash of the server process, which happens only
   * for a POST or PATCH whose body is not JSON, and which leaves the database file as it was.
   */
  lemma StatusCodes(req: Request, clients: seq<Client>, id: string, now: string, decode: string -> string)
    ensures
      var ex := Serve(req, clients, id, now, decode);
      && (ex.reply.Answer? ==> ex.reply.response.status in {200, 201, 404, 422, 500})
      && (ex.reply.Crash? ==> req.body.None? && (req.httpMethod == "POST" || req.httpMethod == "PATCH") && ex.clients == clients)
  {
  }

  /** Every request keeps the collection made of well-formed records. */
  lemma ServeKeepsWellFormed(req: Request, clients: seq<Client>, id: string, now: string, decode: string -> string)
    requires AllWellFormed(clients)
    ensures AllWellFormed(Serve(req, clients, id, now, decode).clients)
  {
    match RouteRequest(req.httpMethod, req.url)
    case Api(Collection, query) =>
      if req.body.Some? {
        CreateKeepsWellFormed(clients, req.body.value, id, now);
      }
      assert Serve(req, clients, id, now, decode).clients == ServeCollection(req, QueryParams(query, decode), clients, id, now).clients;
    case Api(Item(itemId), _) =>
      if req.body.Some? {
        UpdateKeepsWellFormed(clients, itemId, req.body.value, now);
      }
      DeleteKeepsWellFormed(clients, itemId);
      assert Serve(req, clients, id, now, decode).clients == ServeItem(req, itemId, clients, now).clients;
    case _ =>
  }

  /** A POST of valid data to the collection answers 201 with the record and its `Location`. */
  lemma PostValidData(clients: seq<Client>, body: Raw, id: string, now: string, decode: string -> string)
    requires MakeClientFromData(body).Success?
    ensures
      var st := Create(clients, body, id, now);
      Serve(Request("POST", URI_PREFIX, Some(body)), clients, id, now, decode)
        == Exchange(Answer(Response(201, OneClient(st.result.value), Some(URI_PREFIX + "/" + id))), st.clients)
  {
    var req := Request("POST", URI_PREFIX, Some(body));
    CollectionRoute(req, clients, id, now, decode);
    CreateResponse(req, clients, id, now);
  }

  /** A request to the bare collection url is served by `ServeCollection` with no parameters. */
  lemma CollectionRoute(req: Request, clients: seq<Client>, id: string, now: string, decode: string -> string)
    requires req.httpMethod != "OPTIONS" && req.url == URI_PREFIX
    ensures Serve(req, clients, id, now, decode) == ServeCollection(req, map[], clients, id, now)
  {
    CollectionUrlRoutes(req.httpMethod, "");
    assert URI_PREFIX + "" == URI_PREFIX;
  }

  /** A POST of valid data is answered 201 with the created record and its `Location`. */
  lemma CreateResponse(req: Request, clients: seq<Client>, id: string, now: string)
    requires req.httpMethod == "POST" && req.body.Some? && MakeClientFromData(req.body.value).Success?
    ensures
      var st := Create(clients, req.body.value, id, now);
      ServeCollection(req, map[], clients, id, now)
        == Exchange(Answer(Response(201, OneClient(st.result.value), Some(URI_PREFIX + "/" + id))), st.clients)
  {
    var st := Create(clients, req.body.value, id, now);
    assert req.httpMethod != "GET";
    assert st.result.Success?;
    var c := st.result.value;
    assert c.id == id;
    assert ServeCollection(req, map[], clients, id, now)
        == Exchange(Answer(Response(201, OneClient(c), Some(URI_PREFIX + "/" + c.id))), st.clients);
  }

  /** A GET of an item url answers like `getClient` of its id. */
  lemma GetItemUrl(req: Request, clients: seq<Client>, itemId: string, id: string, now: string, decode: string -> string)
    requires req.httpMethod == "GET" && req.url == URI_PREFIX + "/" + itemId
    requires itemId != "" && '?' !in itemId
    ensures Serve(req, clients, id, now, decode) ==
      match GetClient(clients, itemId)
      case Success(c) => Exchange(Answer(Response(200, OneClient(c), None)), clients)
      case Failure(e) => Exchange(Answer(ErrorResponse(e)), clients)
  {
    ItemUrlRoundTrip("GET", itemId, "");
    assert req.url + "" == req.url;
    assert Serve(req, clients, id, now, decode) == ServeItem(req, itemId, clients, now);
  }

  /**
   * A successful POST answers 201 with `Location: /api/clients/{id}`, and a GET of that location
   * then returns the record created, provided its id was new and contains no `?`.
   */
  lemma CreatedClientCanBeFetched(clients: seq<Client>, body: Raw, id: string, now: string,
                                  later: Request, id': string, now': string, decode: string -> string)
    requires MakeClientFromData(body).Success?
    requires id != "" && '?' !in id
    requires forall i :: 0 <= i < |clients| ==> clients[i].id != id
    requires later.httpMethod == "GET" && later.url == URI_PREFIX + "/" + id
    ensures
      var post := Serve(Request("POST", URI_PREFIX, Some(body)), clients, id, now, decode);
      && post.reply.Answer?
      && post.reply.response.status == 201
      && post.reply.response.location == Some(later.url)
      && Serve(later, post.clients, id', now', decode) == Exchange(Answer(Response(200, post.reply.response.body, None)), post.clients)
  {
    var st := Create(clients, body, id, now);
    PostValidData(clients, body, id, now, decode);
    GetAfterCreate(clients, body, id, now);
    GetItemUrl(later, st.clients, id, id', now', decode);
  }

  // ------------------------------------------------------------------ the handler itself

  /**
   * The `createServer` callback run against the live collection: it decides the route, parses the
   * query, calls the repository and writes either the body it returns (with 201 and `Location`
   * after a creation) or the response for the error it throws.
   */
  method Handle(store: ClientStore, req: Request, id: string, now: string, decode: string -> string) returns (reply: Reply)
    modifies store
    ensures Exchange(reply, store.clients) == Serve(req, old(store.clients), id, now, decode)
    ensures old(AllWellFormed(store.clients)) ==> AllWellFormed(store.clients)
  {
    if AllWellFormed(store.clients) {
      ServeKeepsWellFormed(req, store.clients, id, now, decode);
    }
    var route := RouteRequest(req.httpMethod, req.url);
    if route.Preflight? {
      return Answer(Response(200, NoBody, None));
    }
    if route.OutsidePrefix? {
      return Answer(NOT_FOUND);
    }
    var queryParams := ParseQuery(route.query, decode);
    var status := 200;
    var location: Option<string> := None;
    var outcome: Result<Body, Failure> := Success(JsonNull);
    match route.target {
      case Collection =>
        if req.httpMethod == "GET" {
          outcome := Success(ClientList(GetClientList(store.clients, queryParams)));
        } else if req.httpMethod == "POST" {
          if req.body.None? {
            return Crash;
          }
          var created := store.CreateClient(req.body.value, id, now);
          if created.Success? {
            status := 201;
            location := Some(URI_PREFIX + "/" + created.value.id);
            outcome := Success(OneClient(created.value));
          } else {
            outcome := Failure(created.error);
          }
        }
      case Item(itemId) =>
        if req.httpMethod == "GET" {
          var found := GetClient(store.clients, itemId);
          outcome := if found.Success? then Success(OneClient(found.value)) else Failure(found.error);
        } else if req.httpMethod == "PATCH" {
          if req.body.None? {
            return Crash;
          }
          var updated := store.UpdateClient(itemId, req.body.value, now);
          outcome := if updated.Success? then Success(OneClient(updated.value)) else Failure(updated.error);
        } else if req.httpMethod == "DELETE" {
          var deleted := store.DeleteClient(itemId);
          outcome := if deleted.Success? then Success(EmptyObject) else Failure(deleted.error);
        }
    }
    match outcome {
      case Success(body) => reply := Answer(Response(status, body, location));
      case Failure(e) => reply := Answer(ErrorResponse(e));
    }
  }
}
