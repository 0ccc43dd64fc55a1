/**
 * The four POST routes of the intake server. Each binds one schema to one
 * collection, validates and saves the body, and answers with a status code.
 * The database is an append-only sequence of documents per collection; a
 * write that the database refuses is the `writable = false` case.
 */
module Intake {
  import opened Wrappers
  import opened Schemas
  import opened Forms
  import opened Validation

  /** The routes that accept a form. */
  datatype Route = SalesRoute | BuyerRoute | RequirementRoute | JobOpeningRoute

  /** The path each route is mounted on: lower case, under `/api/`, with no
      trailing slash. */
  function PathOf(r: Route): (p: string)
    ensures |p| > 5 && p[..5] == "/api/" && p[|p| - 1] != '/'
    ensures forall k :: 0 <= k < |p| ==> LowerAscii(p[k]) == p[k]
  {
    match r
    case SalesRoute => "/api/sales"
    case BuyerRoute => "/api/buyer"
    case RequirementRoute => "/api/requirement"
    case JobOpeningRoute => "/api/jobopeningform"
  }

  /** ASCII lower case. A case-insensitive JavaScript RegExp without the `u`
      flag folds no character outside ASCII onto an ASCII letter, so this is
      all the case folding route matching does on these paths. */
  function LowerAscii(c: char): char {
    if 'A' <= c <= 'Z' then (c as int + 32) as char else c
  }

  /** Express's default routing (neither `caseSensitive` nor `strict`): a
      request path reaches the route mounted on `mount` when it spells `mount`
      in any letter case, optionally followed by one `/`.

      This is the rule itself; two equivalent forms serve the proofs.
      `RouteKey` reduces a path to one normal form, so that two different
      mount paths can never both match (`MatchingPathResolves`).
      `Reaches`, through the recursive `StartsLower`, is the test `Resolve`
      runs, because a recursive check unfolds cheaply where the quantifier
      here does not. `RouteKeyMatches` and `ReachesIff` tie both to this one. */
  predicate RouteMatches(path: string, mount: string) {
    && (|path| == |mount| || (|path| == |mount| + 1 && path[|mount|] == '/'))
    && forall k :: 0 <= k < |mount| ==> LowerAscii(path[k]) == mount[k]
  }

  /** What a request path is routed by: one trailing `/` dropped, letters lower-cased. */
  function RouteKey(path: string): (key: string)
    ensures |key| == (if |path| > 0 && path[|path| - 1] == '/' then |path| - 1 else |path|)
    ensures forall k :: 0 <= k < |key| ==> key[k] == LowerAscii(path[k])
  {
    var p := if |path| > 0 && path[|path| - 1] == '/' then path[..|path| - 1] else path;
    seq(|p|, k requires 0 <= k < |p| => LowerAscii(p[k]))
  }

  /** On a mount path that does not end in `/`, matching the route and having
      that mount path as routing key are the same thing. */
  lemma RouteKeyMatches(path: string, mount: string)
    requires |mount| > 0 && mount[|mount| - 1] != '/'
    ensures RouteMatches(path, mount) <==> RouteKey(path) == mount
  {
    if RouteMatches(path, mount) && |path| == |mount| {
      assert LowerAscii(path[|path| - 1]) == mount[|mount| - 1];
    }
  }

  /** Every route, in the order the server registers them. */
  const Routes: seq<Route> := [SalesRoute, BuyerRoute, RequirementRoute, JobOpeningRoute]

  /** `path` begins with `mount` up to ASCII letter case, compared one
      character at a time from the end of `mount`. */
  predicate StartsLower(path: string, mount: string)
    requires |mount| <= |path|
    decreases |mount|
  {
    mount == []
    || (StartsLower(path, mount[..|mount| - 1])
        && LowerAscii(path[|mount| - 1]) == mount[|mount| - 1])
  }

  /** The character-by-character check agrees with the index-wise statement. */
  lemma {:induction false} StartsLowerIff(path: string, mount: string)
    requires |mount| <= |path|
    ensures StartsLower(path, mount) <==> forall k :: 0 <= k < |mount| ==> LowerAscii(path[k]) == mount[k]
    decreases |mount|
  {
    if mount != [] {
      var m := mount[..|mount| - 1];
      StartsLowerIff(path, m);
      assert forall k :: 0 <= k < |m| ==> m[k] == mount[k];
    }
  }

  /** How the server tests a path against one mount path. */
  predicate Reaches(path: string, mount: string) {
    && (|path| == |mount| || (|path| == |mount| + 1 && path[|mount|] == '/'))
    && StartsLower(path, mount)
  }

  /** The server's test is exactly Express's matching rule. */
  lemma ReachesIff(path: string, mount: string)
    ensures Reaches(path, mount) <==> RouteMatches(path, mount)
  {
    if |mount| <= |path| {
      StartsLowerIff(path, mount);
    }
  }

  /** The first route of `rs` that `path` reaches. */
  function RouteFor(path: string, rs: seq<Route>): (r: Option<Route>)
    ensures r.Some? ==> RouteMatches(path, PathOf(r.value))
    ensures r.None? ==> forall k :: 0 <= k < |rs| ==> !RouteMatches(path, PathOf(rs[k]))
  {
    if rs == [] then None
    else
      var m := PathOf(rs[0]);
      ReachesIff(path, m);
      if Reaches(path, m) then Some(rs[0])
      else
        var r := RouteFor(path, rs[1..]);
        assert forall k :: 1 <= k < |rs| ==> rs[k] == rs[1..][k - 1];
        r
  }

  /** The route a request path reaches, if any. */
  function Resolve(path: string): (r: Option<Route>)
    ensures r.Some? ==> RouteMatches(path, PathOf(r.value))
    ensures r.None? ==> forall q: Route :: !RouteMatches(path, PathOf(q))
  {
    var r := RouteFor(path, Routes);
    if r.None? then
      forall q: Route ensures !RouteMatches(path, PathOf(q)) {
        assert q == Routes[0] || q == Routes[1] || q == Routes[2] || q == Routes[3];
      }
      r
    else r
  }

  /** The collection name each model is bound to: one per form, in the `form.` namespace. */
  function CollectionOf(r: Route): (c: string)
    ensures |c| > 5 && c[..5] == "form."
    ensures |c| == |PathOf(r)| && forall k :: 5 <= k < |c| ==> c[k] == PathOf(r)[k]
  {
    match r
    case SalesRoute => "form.sales"
    case BuyerRoute => "form.buyer"
    case RequirementRoute => "form.requirement"
    case JobOpeningRoute => "form.jobopeningform"
  }

  /** The schema each model is compiled from. */
  function SchemaOf(r: Route): (s: Schema)
    ensures WellFormed(s)
  {
    match r
    case SalesRoute => SalesWellFormed(); Sales
    case BuyerRoute => BuyerWellFormed(); Buyer
    case RequirementRoute => RequirementWellFormed(); Requirement
    case JobOpeningRoute => JobOpeningWellFormed(); JobOpening
  }

  /** Every route resolves back from its own path, with or without a trailing
      slash, so no two routes share a path. */
  lemma ResolvePathOf(r: Route)
    ensures Resolve(PathOf(r)) == Some(r)
    ensures Resolve(PathOf(r) + "/") == Some(r)
  {
  }

  /** Every spelling Express accepts for a route's path reaches that route:
      any letter case, with or without one trailing slash. */
  lemma MatchingPathResolves(path: string, r: Route)
    requires RouteMatches(path, PathOf(r))
    ensures Resolve(path) == Some(r)
  {
    RouteKeyMatches(path, PathOf(r));
  }

  /** No two routes write to the same collection. */
  lemma CollectionsDistinct(r: Route, q: Route)
    requires r != q
    ensures CollectionOf(r) != CollectionOf(q)
  {
  }

  /** The database: the saved documents of each collection, oldest first. */
  type Store = map<string, seq<Record>>

  /** The documents saved in collection `name`; a collection nobody wrote to is empty. */
  function Docs(store: Store, name: string): seq<Record> {
    if name in store then store[name] else []
  }

  /** `save()` of a new document: one more document at the end of its collection. */
  function Append(store: Store, name: string, rec: Record): (r: Store)
    ensures Docs(r, name) == Docs(store, name) + [rec]
    ensures forall other :: other != name ==> Docs(r, other) == Docs(store, other)
  {
    store[name := Docs(store, name) + [rec]]
  }

  /** Why `save()` rejected: the document failed validation, or the write failed. */
  datatype Failure = Invalid(violations: seq<Violation>) | StorageFailed

  /** What a route answers: the status code, the `message` of the JSON reply
      if it has one, the saved document, and the rejection. */
  datatype Response = Response(
    status: int,
    message: Option<string>,
    saved: Option<Record>,
    failure: Option<Failure>)

  /** `new Model(body).save()` for a route's model: validate, then append to
      the route's own collection unless the database refuses the write. */
  function Save(env: Env, now: Date, r: Route, body: Body, store: Store, writable: bool)
    : (res: Result<(Record, Store), Failure>)
    ensures res.Success? <==> Validate(env, now, SchemaOf(r), body).Success? && writable
    ensures res.Success? ==> res.value.0 == Validate(env, now, SchemaOf(r), body).value
    ensures res.Success? ==> res.value.1 == Append(store, CollectionOf(r), res.value.0)
    ensures res.Failure? && Validate(env, now, SchemaOf(r), body).Failure? ==>
      res.error == Invalid(Validate(env, now, SchemaOf(r), body).error)
  {
    match Validate(env, now, SchemaOf(r), body)
    case Failure(errs) => Failure(Invalid(errs))
    case Success(rec) =>
      if writable then Success((rec, Append(store, CollectionOf(r), rec)))
      else Failure(StorageFailed)
  }

  /** The body the Sales route hands to its model: the request body with
      `date_of_transaction` replaced by the parsed `Date`, every other key untouched. */
  function SalesBody(body: Body, d: Date): (b: Body)
    ensures b.Keys == body.Keys + {"date_of_transaction"}
    ensures b["date_of_transaction"] == Time(d)
    ensures forall k :: k in body && k != "date_of_transaction" ==> b[k] == body[k]
  {
    body["date_of_transaction" := Time(d)]
  }

  /** POST /api/sales: reject an unparseable `date_of_transaction` before
      building a document; otherwise save the rewritten body; any failure of
      the save is a server error. */
  function PostSales(env: Env, now: Date, writable: bool, body: Body, store: Store)
    : (res: (Response, Store))
    ensures res.0.status in {201, 400, 500}
    ensures res.0.status == 201 <==> res.0.saved.Some?
    ensures res.0.status == 201 ==> res.1 == Append(store, CollectionOf(SalesRoute), res.0.saved.value)
    ensures res.0.status != 201 ==> res.1 == store
  {
    match JsDate(env, Lookup(body, "date_of_transaction"))
    case None => (Response(400, Some("Invalid date_of_transaction"), None, None), store)
    case Some(d) =>
      match Save(env, now, SalesRoute, SalesBody(body, d), store, writable)
      case Success((rec, st)) => (Response(201, None, Some(rec), None), st)
      case Failure(e) => (Response(500, Some("Error saving sales data"), None, Some(e)), store)
  }

  /** How the Buyer, Requirement and JobOpening replies name their form, as
      the first word of a sentence and inside one. */
  function FormLabel(r: Route, capitalised: bool): string
    requires r != SalesRoute
  {
    match r
    case BuyerRoute => if capitalised then "Buyer" else "buyer"
    case RequirementRoute => if capitalised then "Requirement" else "requirement"
    case JobOpeningRoute => if capitalised then "Job opening form" else "job opening form"
  }

  /** The `message` of those replies on success: the form's name, then
      " data saved successfully". */
  function SavedMessage(r: Route): (m: string)
    requires r != SalesRoute
    ensures |m| > 24 && m[|m| - 24..] == " data saved successfully"
  {
    FormLabel(r, true) + " data saved successfully"
  }

  /** The `message` of the same replies on failure: "Error saving ", the
      form's name, then " data". */
  function ErrorMessage(r: Route): (m: string)
    requires r != SalesRoute
    ensures |m| > 18 && m[..13] == "Error saving " && m[|m| - 5..] == " data"
  {
    "Error saving " + FormLabel(r, false) + " data"
  }

  /** Each of the three routes has its own success and failure message. */
  lemma MessagesDistinct(r: Route, q: Route)
    requires r != SalesRoute && q != SalesRoute && r != q
    ensures SavedMessage(r) != SavedMessage(q) && ErrorMessage(r) != ErrorMessage(q)
  {
  }

  /** POST /api/buyer, /api/requirement and /api/jobopeningform: save the body
      as is; any failure of the save is a client error. */
  function PostForm(env: Env, now: Date, writable: bool, r: Route, body: Body, store: Store)
    : (res: (Response, Store))
    requires r != SalesRoute
    ensures res.0.status in {201, 400}
    ensures res.0.status == 201 <==> res.0.saved.Some?
    ensures res.0.status == 201 ==> res.1 == Append(store, CollectionOf(r), res.0.saved.value)
    ensures res.0.status != 201 ==> res.1 == store
  {
    match Save(env, now, r, body, store, writable)
    case Success((rec, st)) => (Response(201, Some(SavedMessage(r)), Some(rec), None), st)
    case Failure(e) => (Response(400, Some(ErrorMessage(r)), None, Some(e)), store)
  }

  /** A POST request: routed by path; a path no route is mounted on gets
      Express's default 404 and touches nothing. */
  function Post(env: Env, now: Date, writable: bool, path: string, body: Body, store: Store)
    : (res: (Response, Store))
    ensures res.0.status in {201, 400, 404, 500}
    ensures res.0.status == 404 <==> Resolve(path).None?
    ensures res.0.status == 201 <==> res.0.saved.Some?
    ensures res.0.status == 201 ==>
      res.1 == Append(store, CollectionOf(Resolve(path).value), res.0.saved.value)
    ensures res.0.status != 201 ==> res.1 == store
  {
    match Resolve(path)
    case None => (Response(404, None, None, None), store)
    case Some(SalesRoute) => PostSales(env, now, writable, body, store)
    case Some(r) => PostForm(env, now, writable, r, body, store)
  }

  /** Express's default 404: a POST answers 404 exactly when no route matches
      its path in any letter case and with at most one trailing slash. */
  lemma NotFoundIffUnrouted(env: Env, now: Date, writable: bool, path: string, body: Body, store: Store)
    ensures Post(env, now, writable, path, body, store).0.status == 404
        <==> forall q: Route :: !RouteMatches(path, PathOf(q))
  {
  }

  /** A POST to a route changes only that route's collection: it gains the
      saved document on a 201 and nothing otherwise, and every other
      collection is left as it was. */
  lemma RouteWritesOnlyOwnCollection(env: Env, now: Date, writable: bool, r: Route, body: Body,
                                     store: Store, other: string)
    requires other != CollectionOf(r)
    ensures var (resp, st) := Post(env, now, writable, PathOf(r), body, store);
      && Docs(st, other) == Docs(store, other)
      && Docs(st, CollectionOf(r)) ==
           Docs(store, CollectionOf(r)) + (if resp.status == 201 then [resp.saved.value] else [])
  {
    ResolvePathOf(r);
  }

  /** Status codes of the Buyer, Requirement and JobOpening routes: 201 exactly
      when the body validates and the write succeeds, 400 for every failure. */
  lemma FormRouteStatus(env: Env, now: Date, writable: bool, r: Route, body: Body, store: Store)
    requires r != SalesRoute
    ensures var resp := Post(env, now, writable, PathOf(r), body, store).0;
      && (resp.status == 201 <==> Validate(env, now, SchemaOf(r), body).Success? && writable)
      && (resp.status != 201 ==> resp.status == 400 && resp.message == Some(ErrorMessage(r)))
      && (resp.status == 201 ==>
            resp.message == Some(SavedMessage(r))
            && resp.saved == Some(Validate(env, now, SchemaOf(r), body).value))
  {
  }

  /** Status codes of the Sales route: 400 when `date_of_transaction` does not
      parse, otherwise 201 exactly when the rewritten body validates and the
      write succeeds, and 500 for every other failure, validation included. */
  lemma SalesRouteStatus(env: Env, now: Date, writable: bool, body: Body, store: Store)
    ensures var resp := Post(env, now, writable, "/api/sales", body, store).0;
      var d := JsDate(env, Lookup(body, "date_of_transaction"));
      && (d.None? ==> resp.status == 400)
      && (d.Some? ==>
           && (resp.status == 201 <==>
                 Validate(env, now, Sales, SalesBody(body, d.value)).Success? && writable)
           && (resp.status != 201 ==> resp.status == 500)
           && (resp.status == 201 ==>
                 resp.saved == Some(Validate(env, now, Sales, SalesBody(body, d.value)).value)))
  {
  }

  /** The Sales date pre-check: an absent, empty or unparseable `date_of_transaction`
      answers 400 'Invalid date_of_transaction' before any document is built,
      so nothing is validated and nothing is saved. */
  lemma SalesDatePrecheck(env: Env, now: Date, writable: bool, body: Body, store: Store)
    requires "date_of_transaction" !in body || body["date_of_transaction"] == Str("")
          || env.jsDate(body["date_of_transaction"]).None?
    ensures var (resp, st) := Post(env, now, writable, "/api/sales", body, store);
      && resp == Response(400, Some("Invalid date_of_transaction"), None, None)
      && st == store
  {
  }

  /** The Sales rewrite replaces `date_of_transaction` only: every other path
      of the Sales schema sees exactly what the request body held. */
  lemma SalesRewriteOnlyDate(env: Env, now: Date, body: Body, d: Date, i: nat)
    requires i < |Sales.fields| && Sales.fields[i].name != "date_of_transaction"
    ensures Lookup(SalesBody(body, d), Sales.fields[i].name) == Lookup(body, Sales.fields[i].name)
    ensures Check(env, now, Sales.fields[i], SalesBody(body, d)) == Check(env, now, Sales.fields[i], body)
  {
  }

  /** A saved Sales document holds, as its transaction date, the instant the
      route's own `new Date(...)` produced. */
  lemma SalesDateStored(env: Env, now: Date, writable: bool, body: Body, store: Store)
    ensures var resp := Post(env, now, writable, "/api/sales", body, store).0;
      resp.status == 201 ==>
        && "date_of_transaction" in body
        && env.jsDate(body["date_of_transaction"]).Some?
        && "date_of_transaction" in resp.saved.value
        && resp.saved.value["date_of_transaction"] == When(env.jsDate(body["date_of_transaction"]).value)
  {
    if Post(env, now, writable, "/api/sales", body, store).0.status == 201 {
      var d := env.jsDate(body["date_of_transaction"]).value;
      SalesWellFormed();
      assert Sales.fields[3].name == "date_of_transaction";
      PresentStoredVerbatim(env, now, Sales, SalesBody(body, d), 3);
    }
  }

  /** One POST request as the server sees it: path, body, the clock reading
      used for `Date.now` defaults, and whether the database accepts the write. */
  datatype Request = Request(path: string, body: Body, now: Date, writable: bool)

  /** Runs `step` over the requests in order, each on the store the previous
      one left behind: one response per request. */
  function Run(step: (Request, Store) -> (Response, Store), reqs: seq<Request>, store: Store)
    : (res: (seq<Response>, Store))
    ensures |res.0| == |reqs|
  {
    if reqs == [] then ([], store)
    else
      var (resp, st) := step(reqs[0], store);
      var (rest, fin) := Run(step, reqs[1..], st);
      ([resp] + rest, fin)
  }

  /** The server's request handler: each request is a POST to its path. */
  function Handler(env: Env): (Request, Store) -> (Response, Store) {
    (q: Request, st: Store) => Post(env, q.now, q.writable, q.path, q.body, st)
  }

  /** Serves requests one after another against a shared database. */
  function Serve(env: Env, reqs: seq<Request>, store: Store): (res: (seq<Response>, Store))
    ensures |res.0| == |reqs|
  {
    Run(Handler(env), reqs, store)
  }

  /** Every response of a run has a status the routes can give, is 404
      exactly for the requests no route serves, and carries a document
      exactly when it is 201. */
  lemma ServeStatuses(env: Env, reqs: seq<Request>, store: Store)
    ensures var resps := Serve(env, reqs, store).0;
      forall k :: 0 <= k < |reqs| ==>
        && resps[k].status in {201, 400, 404, 500}
        && (resps[k].status == 404 <==> Resolve(reqs[k].path).None?)
        && (resps[k].status == 201 <==> resps[k].saved.Some?)
  {
    RunResponds(Handler(env), reqs, store);
  }

  /** A step whose responses all have the statuses of `Post` keeps them over a run. */
  lemma {:induction false} RunResponds(step: (Request, Store) -> (Response, Store), reqs: seq<Request>, store: Store)
    requires forall q, st :: WellAnswered(q, step(q, st).0)
    ensures forall k :: 0 <= k < |reqs| ==> WellAnswered(reqs[k], Run(step, reqs, store).0[k])
  {
    if reqs != [] {
      var st := step(reqs[0], store).1;
      RunResponds(step, reqs[1..], st);
      var resps := Run(step, reqs, store).0;
      assert resps[1..] == Run(step, reqs[1..], st).0;
      forall k | 1 <= k < |reqs|
        ensures WellAnswered(reqs[k], resps[k])
      {
        assert resps[k] == Run(step, reqs[1..], st).0[k - 1] && reqs[k] == reqs[1..][k - 1];
      }
    }
  }

  /** A response has a status the routes can give, is 404 exactly when no
      route serves the request, and carries a document exactly when it is 201. */
  predicate WellAnswered(q: Request, resp: Response) {
    && resp.status in {201, 400, 404, 500}
    && (resp.status == 404 <==> Resolve(q.path).None?)
    && (resp.status == 201 <==> resp.saved.Some?)
  }

  /** What one POST adds to collection `name`: its document when it answered
      201 on a route bound to `name`, nothing otherwise. */
  function AddedBy(path: string, resp: Response, name: string): seq<Record> {
    var r := Resolve(path);
    if resp.status == 201 && r.Some? && CollectionOf(r.value) == name
    then [resp.saved.GetOr(map[])] else []
  }

  /** `AddedBy` for collection `name`, as a function of a request and its response. */
  function AddedTo(name: string): (Request, Response) -> seq<Record> {
    (q: Request, resp: Response) => AddedBy(q.path, resp, name)
  }

  /** Concatenates, in order, what `added` says each request of a run contributed. */
  function Collected(added: (Request, Response) -> seq<Record>, reqs: seq<Request>, resps: seq<Response>)
    : seq<Record>
    requires |reqs| == |resps|
  {
    if reqs == [] then [] else added(reqs[0], resps[0]) + Collected(added, reqs[1..], resps[1..])
  }

  /** The documents that answered 201 on a route bound to collection `name`, in order. */
  function SavedTo(reqs: seq<Request>, resps: seq<Response>, name: string): seq<Record>
    requires |reqs| == |resps|
  {
    Collected(AddedTo(name), reqs, resps)
  }

  /** One POST appends to collection `name` exactly what `AddedBy` says. */
  lemma PostAddsTo(env: Env, q: Request, store: Store, name: string)
    ensures var (resp, st) := Post(env, q.now, q.writable, q.path, q.body, store);
      Docs(st, name) == Docs(store, name) + AddedBy(q.path, resp, name)
  {
  }

  /** A step that appends to collection `name` exactly what `added` says
      keeps doing so over a run. */
  lemma {:induction false} RunAppends(step: (Request, Store) -> (Response, Store),
                                      added: (Request, Response) -> seq<Record>,
                                      reqs: seq<Request>, store: Store, name: string)
    requires forall q, st :: Docs(step(q, st).1, name) == Docs(st, name) + added(q, step(q, st).0)
    ensures Docs(Run(step, reqs, store).1, name)
         == Docs(store, name) + Collected(added, reqs, Run(step, reqs, store).0)
  {
    if reqs != [] {
      var p := step(reqs[0], store);
      var rest := Run(step, reqs[1..], p.1);
      RunAppends(step, added, reqs[1..], p.1, name);
      assert Run(step, reqs, store) == ([p.0] + rest.0, rest.1);
      assert ([p.0] + rest.0)[1..] == rest.0;
    }
  }

  /** After a run of requests, every collection holds what it held before
      followed by exactly the documents that answered 201 on its own route:
      nothing is lost, nothing lands in another form's collection. */
  lemma ServeAppendsPerCollection(env: Env, reqs: seq<Request>, store: Store, name: string)
    ensures Docs(Serve(env, reqs, store).1, name)
         == Docs(store, name) + SavedTo(reqs, Serve(env, reqs, store).0, name)
  {
    var step := Handler(env);
    forall q, st ensures Docs(step(q, st).1, name) == Docs(st, name) + AddedTo(name)(q, step(q, st).0) {
      PostAddsTo(env, q, st, name);
    }
    RunAppends(step, AddedTo(name), reqs, store, name);
  }
}
