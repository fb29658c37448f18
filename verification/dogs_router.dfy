/** The dog routes mounted at `/api/v1/dogs`: which handler a request
    reaches, and the middleware gates in front of it. Paths are given as
    their segments after the mount point. */
module DogsRouter {
  import opened Common
  import opened Errors
  import opened UserModel
  import opened AuthController

  /** The request method; `OtherMethod` is any method no route of this
      router registers (PUT, for instance). */
  datatype Method = Get | Head | Post | Patch | Delete | Options | OtherMethod

  /** Where a request ends up. `Allowed` is the router's own answer to an
      OPTIONS request on a registered path: 200 with the `Allow` header
      (and body) listing the path's methods, joined by commas. */
  datatype Route =
    | Stats
    | Top3
    | ListDogs
    | CreateDog
    | GetDog(id: string)
    | UpdateDog(id: string)
    | DeleteDog(id: string)
    | Allowed(methods: seq<string>)
    | NotFound

  datatype Gate = Protect | RestrictTo(roles: seq<string>) | RestrictVerified

  const StatsPath := "dogs-stats"
  const Top3Path := "top-3-smart-dogs"
  const Sellers := ["admin", "seller"]
  const UnknownLink := "The link you access not exits"

  /** The `Allow` lists, in the order the router collects them: each
      matching route adds its methods in registration order with HEAD
      after them when GET is there, skipping names already listed. */
  const RootAllow := ["GET", "POST", "HEAD"]
  const IdAllow := ["GET", "PATCH", "DELETE", "HEAD"]
  const FixedAllow := ["GET", "HEAD", "PATCH", "DELETE"]

  /** A GET route also answers HEAD. */
  predicate Reads(m: Method)
  {
    m == Get || m == Head
  }

  /** The methods a route can be registered for. */
  predicate Routable(m: Method)
  {
    m != Options && m != OtherMethod
  }

  function MethodName(m: Method): string
  {
    match m
    case Get => "GET"
    case Head => "HEAD"
    case Post => "POST"
    case Patch => "PATCH"
    case Delete => "DELETE"
    case Options => "OPTIONS"
    case OtherMethod => "OTHER"
  }

  /** Non-strict matching: the path is given as its segments after the
      mount point, a trailing slash being a final empty segment, and one
      trailing slash is ignored. */
  function Trimmed(segs: seq<string>): (t: seq<string>)
    ensures |segs| > 0 && segs[|segs| - 1] == "" ==> segs == t + [""]
    ensures !(|segs| > 0 && segs[|segs| - 1] == "") ==> t == segs
  {
    if |segs| > 0 && segs[|segs| - 1] == "" then segs[..|segs| - 1] else segs
  }

  function LowerChar(c: char): char
  {
    if 'A' <= c <= 'Z' then (c as int + 32) as char else c
  }

  /** A literal path segment matches case-insensitively: the router's
      patterns are case-insensitive regular expressions, which fold ASCII
      letters only. */
  predicate IsFixed(seg: string, path: string)
  {
    |seg| == |path| && forall k :: 0 <= k < |seg| ==> LowerChar(seg[k]) == path[k]
  }

  /** A path of exactly one non-empty segment, the shape `/:id` matches. */
  predicate OneSegment(p: seq<string>)
  {
    |p| == 1 && p[0] != ""
  }

  /** Routes are tried in registration order: the two fixed paths come
      before `/:id`, so only GET and HEAD reach them; any other method on
      those paths reaches the `/:id` route. An OPTIONS request on a
      registered path is answered by the router itself. Everything else
      falls through to the application's catch-all. */
  function Resolve(m: Method, segs: seq<string>): (r: Route)
    ensures var p := Trimmed(segs);
      && (r == Stats <==> Reads(m) && OneSegment(p) && IsFixed(p[0], StatsPath))
      && (r == Top3 <==> Reads(m) && OneSegment(p) && IsFixed(p[0], Top3Path))
      && (r == ListDogs <==> Reads(m) && p == [])
      && (r == CreateDog <==> m == Post && p == [])
      && (r.GetDog? <==> Reads(m) && OneSegment(p) && !IsFixed(p[0], StatsPath) && !IsFixed(p[0], Top3Path))
      && (r.UpdateDog? <==> m == Patch && OneSegment(p))
      && (r.DeleteDog? <==> m == Delete && OneSegment(p))
      && (r.Allowed? <==> m == Options && (p == [] || OneSegment(p)))
      && ((r.GetDog? || r.UpdateDog? || r.DeleteDog?) ==> r.id == p[0])
  {
    var p := Trimmed(segs);
    if Reads(m) && OneSegment(p) && IsFixed(p[0], StatsPath) then Stats
    else if Reads(m) && OneSegment(p) && IsFixed(p[0], Top3Path) then Top3
    else if p == [] then
      if Reads(m) then ListDogs
      else if m == Post then CreateDog
      else if m == Options then Allowed(RootAllow)
      else NotFound
    else if OneSegment(p) then
      if Reads(m) then GetDog(p[0])
      else if m == Patch then UpdateDog(p[0])
      else if m == Delete then DeleteDog(p[0])
      else if m == Options then
        Allowed(if IsFixed(p[0], StatsPath) || IsFixed(p[0], Top3Path) then FixedAllow else IdAllow)
      else NotFound
    else NotFound
  }

  /** A path written with one trailing slash reaches the same route as
      without it. */
  lemma TrailingSlashIgnored(m: Method, segs: seq<string>)
    requires segs == [] || segs[|segs| - 1] != ""
    ensures Resolve(m, segs + [""]) == Resolve(m, segs)
  {
    assert Trimmed(segs + [""]) == segs;
  }

  /** The fixed paths match in any letter case, with or without a
      trailing slash: `GET /DOGS-STATS` reaches the statistics, and
      `HEAD /Top-3-Smart-Dogs/` the top three. */
  lemma FixedPathsIgnoreCase(upperStats: string, mixedTop3: string)
    requires upperStats == "DOGS-STATS" && mixedTop3 == "Top-3-Smart-Dogs"
    ensures Resolve(Get, [upperStats]) == Stats
    ensures Resolve(Head, [mixedTop3, ""]) == Top3
  {
    assert Trimmed([mixedTop3, ""]) == [mixedTop3];
  }

  /** The router's OPTIONS answer lists exactly the methods that reach a
      route on that path, each once; on a path no route matches, OPTIONS
      falls through to the catch-all like any other request. */
  lemma AllowListsRoutedMethods(segs: seq<string>)
    ensures Resolve(Options, segs) == NotFound <==>
      forall m :: Routable(m) ==> Resolve(m, segs) == NotFound
    ensures Resolve(Options, segs).Allowed? ==>
      var allow := Resolve(Options, segs).methods;
      && (forall m :: Routable(m) ==> (MethodName(m) in allow <==> Resolve(m, segs) != NotFound))
      && (forall k :: 0 <= k < |allow| ==> allow[k] in ["GET", "HEAD", "POST", "PATCH", "DELETE"])
      && (forall i, j :: 0 <= i < j < |allow| ==> allow[i] != allow[j])
  {
    var p := Trimmed(segs);
    if p == [] || OneSegment(p) {
      assert Resolve(Get, segs) != NotFound;
      var allow := Resolve(Options, segs).methods;
      assert allow == RootAllow || allow == IdAllow || allow == FixedAllow;
      forall m | Routable(m)
        ensures MethodName(m) in allow <==> Resolve(m, segs) != NotFound
      {
        AllowedMethod(segs, m);
      }
    } else {
      forall m | Routable(m)
        ensures Resolve(m, segs) == NotFound
      {
      }
    }
  }

  /** One method's place in the `Allow` list of a registered path. */
  lemma AllowedMethod(segs: seq<string>, m: Method)
    requires Trimmed(segs) == [] || OneSegment(Trimmed(segs))
    requires Routable(m)
    ensures MethodName(m) in Resolve(Options, segs).methods <==> Resolve(m, segs) != NotFound
  {
    var p := Trimmed(segs);
    var allow := Resolve(Options, segs).methods;
    if p == [] {
      assert allow == RootAllow;
    } else if IsFixed(p[0], StatsPath) || IsFixed(p[0], Top3Path) {
      assert allow == FixedAllow;
    } else {
      assert allow == IdAllow;
    }
  }

  /** Requests no route answers: longer paths, and the methods a path does
      not register. */
  lemma UnroutedIsNotFound(m: Method, segs: seq<string>)
    ensures |Trimmed(segs)| > 1 ==> Resolve(m, segs) == NotFound
    ensures m == OtherMethod ==> Resolve(m, segs) == NotFound
    ensures m == Post && Trimmed(segs) != [] ==> Resolve(m, segs) == NotFound
    ensures (m == Patch || m == Delete) && Trimmed(segs) == [] ==> Resolve(m, segs) == NotFound
    ensures Trimmed(segs) == [""] ==> Resolve(m, segs) == NotFound
  {
  }

  /** The middleware in front of each handler, in order. */
  function Gates(route: Route): (gs: seq<Gate>)
    ensures route.GetDog? || route.Allowed? || route == NotFound <==> gs == []
    ensures gs != [] ==> gs[0] == Protect
  {
    match route
    case Stats => [Protect, RestrictVerified]
    case Top3 => [Protect, RestrictVerified]
    case ListDogs => [Protect]
    case CreateDog => [Protect, RestrictTo(Sellers)]
    case GetDog(_) => []
    case Allowed(_) => []
    case UpdateDog(_) => [Protect, RestrictTo(Sellers)]
    case DeleteDog(_) => [Protect, RestrictTo(Sellers)]
    case NotFound => []
  }

  /** The gates run in order; the first refusal is the answer. The result
      is the authenticated user's position, if a gate authenticated one. A
      role or verification gate with no authenticated user fails reading
      the missing user. */
  function RunGates(gates: seq<Gate>, who: Option<nat>, users: seq<User>, header: Option<string>,
                    verify: string -> Verdict, changedAfter: (int, int) -> bool): (r: Result<Option<nat>>)
    requires who.Some? ==> who.value < |users|
    ensures r.Ok? && r.value.Some? ==> r.value.value < |users|
    ensures gates == [] ==> r == Ok(who)
    decreases |gates|
  {
    if gates == [] then Ok(who)
    else
      var next: Result<Option<nat>> :=
        match gates[0]
        case Protect =>
          (match AuthController.Protect(users, header, verify, changedAfter)
           case Ok(i) => Ok(Some(i))
           case Fail(e) => Fail(e))
        case RestrictTo(roles) =>
          if who.None? then Fail(Raw("TypeError", "Cannot read properties of undefined (reading 'role')"))
          else (match AuthController.RestrictTo(roles, users[who.value])
                case Ok(_) => Ok(who)
                case Fail(e) => Fail(e))
        case RestrictVerified =>
          if who.None? then Fail(Raw("TypeError", "Cannot read properties of undefined (reading 'emailVerify')"))
          else (match AuthController.RestrictVerified(users[who.value])
                case Ok(_) => Ok(who)
                case Fail(e) => Fail(e));
      match next
      case Fail(e) => Fail(e)
      case Ok(w) => RunGates(gates[1..], w, users, header, verify, changedAfter)
  }

  /** The request as the application answers it: the catch-all's 404 for
      an unrouted request, otherwise the gates' verdict (none for the
      router's own OPTIONS answer). */
  function Admit(route: Route, users: seq<User>, header: Option<string>,
                 verify: string -> Verdict, changedAfter: (int, int) -> bool): (r: Result<Option<nat>>)
    ensures route == NotFound ==> r == Fail(AppErr(UnknownLink, 404))
    ensures route.GetDog? || route.Allowed? ==> r == Ok(None)
  {
    if route == NotFound then Fail(AppErr(UnknownLink, 404))
    else RunGates(Gates(route), None, users, header, verify, changedAfter)
  }

  /** Authentication comes first: on every protected route a request that
      fails `protect` gets exactly protect's refusal, before any role or
      verification check. */
  lemma ProtectRefusesFirst(route: Route, users: seq<User>, header: Option<string>,
                            verify: string -> Verdict, changedAfter: (int, int) -> bool)
    requires route != NotFound && !route.GetDog? && !route.Allowed?
    requires AuthController.Protect(users, header, verify, changedAfter).Fail?
    ensures Admit(route, users, header, verify, changedAfter)
      == Fail(AuthController.Protect(users, header, verify, changedAfter).error)
  {
  }

  /** The list route needs exactly a login. */
  lemma ListNeedsLogin(users: seq<User>, header: Option<string>,
                       verify: string -> Verdict, changedAfter: (int, int) -> bool)
    ensures Admit(ListDogs, users, header, verify, changedAfter).Ok?
      <==> AuthController.Protect(users, header, verify, changedAfter).Ok?
  {
  }

  /** Creating, updating and deleting a dog is admitted only for an active
      admin or seller, and for every such logged-in user. */
  lemma MutationsNeedSeller(route: Route, users: seq<User>, header: Option<string>,
                            verify: string -> Verdict, changedAfter: (int, int) -> bool)
    requires route == CreateDog || route.UpdateDog? || route.DeleteDog?
    ensures var r := Admit(route, users, header, verify, changedAfter);
      var p := AuthController.Protect(users, header, verify, changedAfter);
      (r.Ok? <==> p.Ok? && users[p.value].role in Sellers)
      && (r.Ok? ==> r.value == Some(p.value) && users[p.value].active)
      && (p.Ok? && users[p.value].role !in Sellers ==> r == Fail(AppErr(NoPermission, 403)))
  {
    var p := AuthController.Protect(users, header, verify, changedAfter);
    if p.Ok? {
      var i := p.value;
      var rest := [RestrictTo(Sellers)];
      assert Gates(route)[1..] == rest;
      assert rest[1..] == [];
      assert Admit(route, users, header, verify, changedAfter)
        == RunGates(rest, Some(i), users, header, verify, changedAfter);
    }
  }

  /** The statistics and the top three are admitted only for a logged-in
      user whose email is verified. */
  lemma StatsNeedVerifiedEmail(route: Route, users: seq<User>, header: Option<string>,
                               verify: string -> Verdict, changedAfter: (int, int) -> bool)
    requires route == Stats || route == Top3
    ensures var r := Admit(route, users, header, verify, changedAfter);
      var p := AuthController.Protect(users, header, verify, changedAfter);
      (r.Ok? <==> p.Ok? && users[p.value].emailVerify)
      && (p.Ok? && !users[p.value].emailVerify ==> r == Fail(AppErr(NotVerified, 403)))
  {
    var p := AuthController.Protect(users, header, verify, changedAfter);
    if p.Ok? {
      var i := p.value;
      var rest := [RestrictVerified];
      assert Gates(route)[1..] == rest;
      assert rest[1..] == [];
      assert Admit(route, users, header, verify, changedAfter)
        == RunGates(rest, Some(i), users, header, verify, changedAfter);
    }
  }
}
