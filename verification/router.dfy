// Slash command routing (api/cmdroute/router.go), on a router tree that has been built.

module Routing {
  import opened Optional

  type Middleware = nat

  /** A handler as registered, or with a middleware around it. */
  datatype Handler = Registered(id: nat) | Wrapped(outer: Middleware, inner: Handler)

  datatype Node = Sub(router: Router) | Command(id: nat) | Component

  datatype Router = Router(nodes: map<string, Node>, mws: seq<Middleware>, groups: seq<Router>)

  datatype Kind = Subcommand | SubcommandGroup | Other

  datatype CommandOption = CommandOption(kind: Kind, name: string, options: seq<CommandOption>)

  /** A command found: its router with all of that router's parents, root first, and the option. */
  datatype Found = Found(chain: seq<Router>, id: nat, data: CommandOption)

  // A router's parents are kept as a chain of routers from the root down to it.

  function Here(chain: seq<Router>): Router
    requires chain != []
  {
    chain[|chain| - 1]
  }

  /** findCommandHandlerOnce: this router, without its groups. */
  function FindOnce(chain: seq<Router>, data: CommandOption): Option<Found>
    requires chain != []
    decreases data, 0
  {
    if data.name !in Here(chain).nodes then None
    else
      match Here(chain).nodes[data.name]
      case Sub(sub) =>
        if |data.options| != 1 || data.kind != SubcommandGroup then None
        else Find(chain + [sub], data.options[0])
      case Command(id) => if data.kind != Subcommand then None else Some(Found(chain, id, data))
      case Component => None
  }

  /** findCommandHandler: this router, then its groups from some index on. */
  function FindFrom(chain: seq<Router>, data: CommandOption, i: nat): Option<Found>
    requires chain != [] && i <= |Here(chain).groups|
    decreases data, 1, |Here(chain).groups| - i
  {
    if i == |Here(chain).groups| then None
    else
      var found := FindOnce(chain + [Here(chain).groups[i]], data);
      if found.Some? then found else FindFrom(chain, data, i + 1)
  }

  function Find(chain: seq<Router>, data: CommandOption): Option<Found>
    requires chain != []
    decreases data, 2
  {
    var found := FindOnce(chain, data);
    if found.Some? then found else FindFrom(chain, data, 0)
  }

  method FindCommandHandlerOnce(chain: seq<Router>, data: CommandOption) returns (found: Option<Found>)
    requires chain != []
    ensures found == FindOnce(chain, data)
    decreases data, 0
  {
    if data.name !in Here(chain).nodes {
      return None;
    }
    match Here(chain).nodes[data.name] {
      case Sub(sub) =>
        if |data.options| != 1 || data.kind != SubcommandGroup {
          return None;
        }
        found := FindCommandHandler(chain + [sub], data.options[0]);
      case Command(id) =>
        if data.kind != Subcommand {
          return None;
        }
        found := Some(Found(chain, id, data));
      case Component =>
        found := None;
    }
  }

  method FindCommandHandler(chain: seq<Router>, data: CommandOption) returns (found: Option<Found>)
    requires chain != []
    ensures found == Find(chain, data)
    decreases data, 1
  {
    found := FindCommandHandlerOnce(chain, data);
    if found.Some? {
      return;
    }
    for i := 0 to |Here(chain).groups|
      invariant Find(chain, data) == FindFrom(chain, data, i)
    {
      found := FindCommandHandlerOnce(chain + [Here(chain).groups[i]], data);
      if found.Some? {
        return;
      }
    }
    found := None;
  }

  // Paths through the tree.

  const SELF := -1

  /** The router that a choice stands for: this one, or one of its groups. */
  function Chosen(chain: seq<Router>, choice: int): Option<seq<Router>>
    requires chain != []
  {
    if choice == SELF then Some(chain)
    else if 0 <= choice < |Here(chain).groups| then Some(chain + [Here(chain).groups[choice]])
    else None
  }

  /** What a path leads to: at every step one choice of a router, in which the name is looked up. */
  function Resolve(chain: seq<Router>, data: CommandOption, path: seq<int>): Option<Found>
    requires chain != []
    decreases |path|
  {
    if path == [] || Chosen(chain, path[0]).None? then None
    else
      var at := Chosen(chain, path[0]).value;
      if data.name !in Here(at).nodes then None
      else
        match Here(at).nodes[data.name]
        case Sub(sub) =>
          if |data.options| == 1 && data.kind == SubcommandGroup then Resolve(at + [sub], data.options[0], path[1..])
          else None
        case Command(id) => if |path| == 1 && data.kind == Subcommand then Some(Found(at, id, data)) else None
        case Component => None
  }

  /** Path a is tried before path b. */
  predicate Before(a: seq<int>, b: seq<int>) {
    a != [] && b != [] && (a[0] < b[0] || (a[0] == b[0] && Before(a[1..], b[1..])))
  }

  /** Among the paths that start with choice i or a later one, this is the first to lead anywhere. */
  ghost predicate FirstFrom(chain: seq<Router>, data: CommandOption, i: int, path: seq<int>)
    requires chain != []
  {
    && path != [] && path[0] >= i
    && forall other :: Before(other, path) && other[0] >= i ==> Resolve(chain, data, other).None?
  }

  ghost predicate NoneFrom(chain: seq<Router>, data: CommandOption, i: int)
    requires chain != []
  {
    forall other :: other != [] && other[0] >= i ==> Resolve(chain, data, other).None?
  }

  /** The same for the paths that start with one choice. */
  ghost predicate NoneAt(chain: seq<Router>, data: CommandOption, choice: int)
    requires chain != []
  {
    forall rest :: Resolve(chain, data, [choice] + rest).None?
  }

  lemma {:induction false} OnceIsFirst(chain: seq<Router>, choice: int, data: CommandOption) returns (rest: seq<int>)
    requires chain != [] && Chosen(chain, choice).Some?
    ensures var found := FindOnce(Chosen(chain, choice).value, data);
            if found.Some? then
              && found == Resolve(chain, data, [choice] + rest)
              && (forall other :: Before(other, rest) ==> Resolve(chain, data, [choice] + other).None?)
            else NoneAt(chain, data, choice)
    decreases data, 0
  {
    hide Before, FindFrom, Find;
    var at := Chosen(chain, choice).value;
    rest := [];
    forall other: seq<int> ensures ([choice] + other)[1..] == other {
    }
    if data.name in Here(at).nodes {
      match Here(at).nodes[data.name] {
        case Sub(sub) =>
          if |data.options| == 1 && data.kind == SubcommandGroup {
            rest := FindIsFirst(at + [sub], data.options[0]);
            forall other ensures Resolve(chain, data, [choice] + other) == Resolve(at + [sub], data.options[0], other) {
            }
          }
        case Command(_) => NothingBefore();
        case Component =>
      }
    }
  }

  lemma NothingBefore()
    ensures forall other :: !Before(other, [])
  {
  }

  lemma {:induction false} GroupsAreFirst(chain: seq<Router>, data: CommandOption, i: nat) returns (path: seq<int>)
    requires chain != [] && i <= |Here(chain).groups|
    ensures if FindFrom(chain, data, i).Some?
            then FirstFrom(chain, data, i, path) && FindFrom(chain, data, i) == Resolve(chain, data, path)
            else NoneFrom(chain, data, i)
    decreases data, 1, |Here(chain).groups| - i
  {
    hide FindOnce;
    path := [];
    if i < |Here(chain).groups| {
      var rest := OnceIsFirst(chain, i, data);
      if FindOnce(Chosen(chain, i).value, data).Some? {
        path := [i] + rest;
        FirstHere(chain, data, i, rest);
      } else {
        path := GroupsAreFirst(chain, data, i + 1);
        FirstLater(chain, data, i, path);
      }
    }
  }

  /** A path that is first among those with its first choice is first from that choice on. */
  lemma FirstHere(chain: seq<Router>, data: CommandOption, choice: int, rest: seq<int>)
    requires chain != []
    requires forall other :: Before(other, rest) ==> Resolve(chain, data, [choice] + other).None?
    ensures FirstFrom(chain, data, choice, [choice] + rest)
  {
    hide Resolve;
    var path := [choice] + rest;
    forall other | Before(other, path) && other[0] >= choice ensures Resolve(chain, data, other).None? {
      assert path[1..] == rest && other == [choice] + other[1..];
    }
  }

  /** A choice that leads nowhere may be put in front. */
  lemma FirstLater(chain: seq<Router>, data: CommandOption, choice: int, path: seq<int>)
    requires chain != [] && NoneAt(chain, data, choice)
    ensures FirstFrom(chain, data, choice + 1, path) ==> FirstFrom(chain, data, choice, path)
    ensures NoneFrom(chain, data, choice + 1) ==> NoneFrom(chain, data, choice)
  {
    hide Resolve;
    forall other: seq<int> | other != [] && other[0] == choice ensures Resolve(chain, data, other).None? {
      assert other == [choice] + other[1..];
    }
  }

  lemma {:induction false} FindIsFirst(chain: seq<Router>, data: CommandOption) returns (path: seq<int>)
    requires chain != []
    ensures if Find(chain, data).Some? then
              && Find(chain, data) == Resolve(chain, data, path)
              && (forall other :: Before(other, path) ==> Resolve(chain, data, other).None?)
            else forall other :: Resolve(chain, data, other).None?
    decreases data, 2
  {
    hide FindOnce, FindFrom, Resolve, Before;
    var rest := OnceIsFirst(chain, SELF, data);
    if FindOnce(chain, data).Some? {
      path := [SELF] + rest;
      FirstHere(chain, data, SELF, rest);
    } else {
      path := GroupsAreFirst(chain, data, 0);
      FirstLater(chain, data, SELF, path);
    }
    forall other ensures other == [] || other[0] < SELF ==> Resolve(chain, data, other).None? {
      NoChoice(chain, data, other);
    }
    forall other ensures Before(other, path) ==> other != [] {
      BeforeIsNonempty(other, path);
    }
  }

  lemma NoChoice(chain: seq<Router>, data: CommandOption, path: seq<int>)
    requires chain != []
    ensures path == [] || path[0] < SELF ==> Resolve(chain, data, path).None?
  {
  }

  lemma BeforeIsNonempty(a: seq<int>, b: seq<int>)
    ensures Before(a, b) ==> a != []
  {
  }

  /** Routing is sound and complete: a handler is found exactly when some path leads to one. */
  lemma FoundIff(chain: seq<Router>, data: CommandOption)
    requires chain != []
    ensures Find(chain, data).Some? <==> exists path :: Resolve(chain, data, path).Some?
  {
    var path := FindIsFirst(chain, data);
  }

  // Middlewares.

  /** A handler with middlewares around it, the first one outermost. */
  function Compose(mws: seq<Middleware>, h: Handler): Handler {
    if mws == [] then h else Wrapped(mws[0], Compose(mws[1..], h))
  }

  /** The middlewares of a router and its parents: the root's first, each router's in order of addition. */
  function Middlewares(chain: seq<Router>): seq<Middleware> {
    if chain == [] then [] else chain[0].mws + Middlewares(chain[1..])
  }

  lemma {:induction false} MiddlewaresOfLast(chain: seq<Router>)
    requires chain != []
    ensures Middlewares(chain) == Middlewares(chain[..|chain| - 1]) + Here(chain).mws
  {
    if |chain| > 1 {
      MiddlewaresOfLast(chain[1..]);
      assert chain[1..][..|chain| - 2] == chain[..|chain| - 1][1..];
      assert Here(chain[1..]) == Here(chain);
    }
  }

  lemma {:induction false} ComposeOne(mws: seq<Middleware>, m: Middleware, h: Handler)
    ensures Compose(mws + [m], h) == Compose(mws, Wrapped(m, h))
  {
    if mws != [] {
      ComposeOne(mws[1..], m, h);
      assert (mws + [m])[1..] == mws[1..] + [m];
    } else {
      assert mws + [m] == [m];
    }
  }

  /** callHandler, up to calling the result: from the router that holds the handler up to the root, and
      in each from its last middleware to its first. */
  method CallHandler(chain: seq<Router>, fn: Handler) returns (h: Handler)
    ensures h == Compose(Middlewares(chain), fn)
  {
    hide Compose, Middlewares;
    h := fn;
    var depth := |chain|;
    assert chain[..depth] == chain;
    while depth > 0
      invariant 0 <= depth <= |chain|
      invariant Compose(Middlewares(chain[..depth]), h) == Compose(Middlewares(chain), fn)
    {
      var r := chain[depth - 1];
      ghost var parents := Middlewares(chain[..depth - 1]);
      MiddlewaresOfLast(chain[..depth]);
      assert chain[..depth][..depth - 1] == chain[..depth - 1];
      var i := |r.mws|;
      assert r.mws[..i] == r.mws;
      while i > 0
        invariant 0 <= i <= |r.mws|
        invariant Compose(parents + r.mws[..i], h) == Compose(Middlewares(chain), fn)
      {
        i := i - 1;
        ComposeOne(parents + r.mws[..i], r.mws[i], h);
        assert parents + r.mws[..i + 1] == parents + r.mws[..i] + [r.mws[i]];
        h := Wrapped(r.mws[i], h);
      }
      assert parents + r.mws[..0] == parents;
      depth := depth - 1;
    }
    NoMiddlewares(h);
  }

  lemma NoMiddlewares(h: Handler)
    ensures Compose(Middlewares([]), h) == h
  {
  }

  /** The middlewares around a handler, from the outermost one in. */
  function Layers(h: Handler): seq<Middleware> {
    if h.Registered? then [] else [h.outer] + Layers(h.inner)
  }

  function Core(h: Handler): nat {
    if h.Registered? then h.id else Core(h.inner)
  }

  lemma {:induction false} LayersOfCompose(mws: seq<Middleware>, id: nat)
    ensures Layers(Compose(mws, Registered(id))) == mws && Core(Compose(mws, Registered(id))) == id
  {
    if mws != [] {
      LayersOfCompose(mws[1..], id);
    }
  }

  // What the lookup looks at.

  /** The lookups find nothing, or the same handler to be called with the same option and middlewares. */
  predicate Agree(f: Option<Found>, g: Option<Found>) {
    if f.None? then g.None?
    else
      && g.Some? && f.value.id == g.value.id && f.value.data == g.value.data
      && Middlewares(f.value.chain) == Middlewares(g.value.chain)
  }

  /** The routers have the same nodes, and their groups too, and the same middlewares. */
  predicate Alike(r: Router, q: Router) {
    && r.nodes == q.nodes && r.mws == q.mws && |r.groups| == |q.groups|
    && forall k :: 0 <= k < |r.groups| ==> r.groups[k].nodes == q.groups[k].nodes && r.groups[k].mws == q.groups[k].mws
  }

  lemma OneDeeper(a: seq<Router>, b: seq<Router>, r: Router, q: Router)
    requires Middlewares(a) == Middlewares(b) && r.mws == q.mws
    ensures Middlewares(a + [r]) == Middlewares(b + [q])
  {
    MiddlewaresOfLast(a + [r]);
    MiddlewaresOfLast(b + [q]);
    assert (a + [r])[..|a|] == a && (b + [q])[..|b|] == b;
  }

  lemma {:induction false} OnceAgrees(a: seq<Router>, b: seq<Router>, data: CommandOption)
    requires a != [] && b != [] && Here(a).nodes == Here(b).nodes && Middlewares(a) == Middlewares(b)
    ensures Agree(FindOnce(a, data), FindOnce(b, data))
    decreases data, 0
  {
    hide Middlewares, Find;
    if data.name in Here(a).nodes && Here(a).nodes[data.name].Sub?
       && |data.options| == 1 && data.kind == SubcommandGroup
    {
      var sub := Here(a).nodes[data.name].router;
      OneDeeper(a, b, sub, sub);
      FindAgrees(a + [sub], b + [sub], data.options[0]);
    }
  }

  lemma {:induction false} GroupsAgree(a: seq<Router>, b: seq<Router>, data: CommandOption, i: nat)
    requires a != [] && b != [] && Alike(Here(a), Here(b)) && Middlewares(a) == Middlewares(b)
    requires i <= |Here(a).groups|
    ensures Agree(FindFrom(a, data, i), FindFrom(b, data, i))
    decreases data, 1, |Here(a).groups| - i
  {
    hide Middlewares, FindOnce;
    if i < |Here(a).groups| {
      OneDeeper(a, b, Here(a).groups[i], Here(b).groups[i]);
      OnceAgrees(a + [Here(a).groups[i]], b + [Here(b).groups[i]], data);
      GroupsAgree(a, b, data, i + 1);
    }
  }

  /** The lookup only looks at a router, its direct groups and the middlewares above. */
  lemma {:induction false} FindAgrees(a: seq<Router>, b: seq<Router>, data: CommandOption)
    requires a != [] && b != [] && Alike(Here(a), Here(b)) && Middlewares(a) == Middlewares(b)
    ensures Agree(Find(a, data), Find(b, data))
    decreases data, 2
  {
    hide Middlewares, FindOnce, FindFrom;
    OnceAgrees(a, b, data);
    GroupsAgree(a, b, data, 0);
  }

  /** So what a group's own groups hold makes no difference to what is called, with what option, and through
      which middlewares: a command registered there is never found through it. */
  lemma GroupsOfGroupsAreMissed(root: Router, i: nat, deeper: seq<Router>, data: CommandOption)
    requires i < |root.groups|
    ensures var other := root.(groups := root.groups[i := root.groups[i].(groups := deeper)]);
            Agree(Find([root], data), Find([other], data))
  {
    hide Find, Agree;
    var other := root.(groups := root.groups[i := root.groups[i].(groups := deeper)]);
    OneDeeper([], [], root, other);
    assert [] + [root] == [root] && [] + [other] == [other];
    FindAgrees([root], [other], data);
  }

  /** A command registered on the router itself is found whatever its groups hold, if it is called with the kind of
      a command. */
  lemma OwnCommandIsFound(root: Router, data: CommandOption, id: nat)
    requires data.name in root.nodes && root.nodes[data.name] == Command(id)
    ensures data.kind == Subcommand ==> Find([root], data) == Some(Found([root], id, data))
    ensures data.kind != Subcommand ==> FindOnce([root], data).None?
  {
  }

  /** So is a subcommand of it, called through a single option, with both routers' middlewares to come. */
  lemma SubcommandIsFound(root: Router, sub: Router, data: CommandOption, id: nat)
    requires data.name in root.nodes && root.nodes[data.name] == Sub(sub)
    requires data.kind == SubcommandGroup && |data.options| == 1
    requires data.options[0].kind == Subcommand
    requires data.options[0].name in sub.nodes && sub.nodes[data.options[0].name] == Command(id)
    ensures Find([root], data) == Some(Found([root, sub], id, data.options[0]))
  {
    assert [root] + [sub] == [root, sub];
    assert Find([root, sub], data.options[0]) == Some(Found([root, sub], id, data.options[0]));
    assert FindOnce([root], data) == Find([root] + [sub], data.options[0]);
  }

  // Handling a command.

  method CmdIsGroup(options: seq<CommandOption>) returns (r: bool)
    ensures r <==> exists o <- options :: o.kind == SubcommandGroup || o.kind == Subcommand
  {
    for i := 0 to |options|
      invariant forall j :: 0 <= j < i ==> options[j].kind == Other
    {
      if options[i].kind == SubcommandGroup || options[i].kind == Subcommand {
        return true;
      }
    }
    return false;
  }

  /** What is called: what the first path that leads to a command leads to, inside the middlewares of its routers. */
  ghost predicate Calls(root: Router, data: CommandOption, r: Option<(Handler, CommandOption)>) {
    if r.None? then forall path :: Resolve([root], data, path).None?
    else
      exists path, found ::
        && Resolve([root], data, path) == Some(found)
        && (forall other :: Before(other, path) ==> Resolve([root], data, other).None?)
        && Core(r.value.0) == found.id && r.value.1 == found.data
        && Layers(r.value.0) == Middlewares(found.chain)
  }

  /** handleCommand: the handler to call, with its middlewares, and the option it is called with. A command with
      subcommands is looked up as a group of them, any other as a command. */
  method HandleCommand(root: Router, name: string, options: seq<CommandOption>)
    returns (r: Option<(Handler, CommandOption)>)
    ensures (exists o <- options :: o.kind == SubcommandGroup || o.kind == Subcommand) ==>
              Calls(root, CommandOption(SubcommandGroup, name, options), r)
    ensures !(exists o <- options :: o.kind == SubcommandGroup || o.kind == Subcommand) ==>
              Calls(root, CommandOption(Subcommand, name, options), r)
  {
    hide Resolve, Before, Find;
    var group := CmdIsGroup(options);
    var data := CommandOption(if group then SubcommandGroup else Subcommand, name, options);
    var found := FindCommandHandler([root], data);
    ghost var path := FindIsFirst([root], data);
    if found.None? {
      return None;
    }
    var h := CallHandler(found.value.chain, Registered(found.value.id));
    LayersOfCompose(Middlewares(found.value.chain), found.value.id);
    r := Some((h, found.value.data));
    assert Resolve([root], data, path) == Some(found.value);
  }
}
