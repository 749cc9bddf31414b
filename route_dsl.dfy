/** The route-definition builders: the route-set builder keeps a stack of
    open groups and files every route under the innermost one; the group
    builder files routes under its own group with the group's default
    controller, and nests child groups under it. A block passed to `group`
    is modelled as the sequence of builder calls it makes, with `Raise`
    standing for an exception thrown from inside it. */
module RouteDsls {
  import opened Wrappers
  import opened OrderedMaps
  import opened Values

  /** `Rapid::RouteGroup`: a group's id and parent are fixed at creation; its
      name, description, default controller and child list are changed by
      the group builder. */
  class RouteGroup {
    const id: string
    const parent: Option<RouteGroup>
    var name: Value
    var description: Value
    var defaultController: Value
    var groups: seq<RouteGroup>

    constructor(id: string, parent: Option<RouteGroup>)
      ensures this.id == id && this.parent == parent
      ensures name == Nil && description == Nil && defaultController == Nil && groups == []
    {
      this.id := id;
      this.parent := parent;
      name := Nil;
      description := Nil;
      defaultController := Nil;
      groups := [];
    }
  }

  /** The keyword options a route is defined with. `controller` and `group`
      are None when the key is left out, and Some (possibly of nil) when it
      is given; `others` are passed on untouched. */
  datatype RouteOptions = RouteOptions(
    controller: Option<Value>,
    group: Option<Option<RouteGroup>>,
    others: OMap<string, Value>)

  /** A route as created: path, request method, controller, group and the
      remaining options. */
  datatype DefinedRoute = DefinedRoute(
    path: string,
    requestMethod: Value,
    controller: Value,
    group: Option<RouteGroup>,
    options: OMap<string, Value>)

  /** `Rapid::RouteSet`, seen through the routes added to it. */
  class RouteSet {
    var routes: seq<DefinedRoute>

    constructor()
      ensures routes == []
    {
      routes := [];
    }

    /** `add(route)` */
    method Add(r: DefinedRoute)
      modifies this
      ensures routes == old(routes) + [r]
    {
      routes := routes + [r];
    }
  }

  /** The request-method helpers. */
  datatype Verb = Get | Post | Patch | Put | Delete

  function VerbMethod(v: Verb): (m: Value)
    ensures m.Sym?
  {
    match v
    case Get => Sym("get")
    case Post => Sym("post")
    case Patch => Sym("patch")
    case Put => Sym("put")
    case Delete => Sym("delete")
  }

  /** The helpers set five distinct request methods. */
  lemma VerbMethodInjective(a: Verb, b: Verb)
    ensures VerbMethod(a) == VerbMethod(b) <==> a == b
  {
  }

  /** A route foreseen by a specification function: what it is defined with,
      and whether it is defined directly in the block being run (rather than
      in a nested group). */
  datatype Planned = Planned(path: string, requestMethod: Value, options: RouteOptions, topLevel: bool)

  /** `r` is the route `p` foresees. */
  predicate Matches(r: DefinedRoute, p: Planned) {
    r.path == p.path && r.requestMethod == p.requestMethod
    && r.controller == p.options.controller.GetOr(Nil) && r.options == p.options.others
  }

  /** `after` is `before` followed by the planned routes, and those defined
      directly in the block carry their explicit group if one is given and
      `top` otherwise. */
  predicate Extends(before: seq<DefinedRoute>, after: seq<DefinedRoute>, plan: seq<Planned>, top: Option<RouteGroup>) {
    |after| == |before| + |plan| && after[..|before|] == before
    && forall k :: 0 <= k < |plan| ==>
         Matches(after[|before| + k], plan[k])
         && (plan[k].topLevel ==> after[|before| + k].group == plan[k].options.group.GetOr(top))
  }

  /** A nested block's routes, seen from the enclosing block. */
  function Nested(plan: seq<Planned>): (r: seq<Planned>)
    ensures |r| == |plan|
    ensures forall k :: 0 <= k < |plan| ==> r[k] == plan[k].(topLevel := false)
  {
    seq(|plan|, k requires 0 <= k < |plan| => plan[k].(topLevel := false))
  }

  lemma ExtendsNone(rs: seq<DefinedRoute>, top: Option<RouteGroup>)
    ensures Extends(rs, rs, [], top)
  {
  }

  lemma ExtendsTrans(a: seq<DefinedRoute>, b: seq<DefinedRoute>, c: seq<DefinedRoute>, p: seq<Planned>, q: seq<Planned>, top: Option<RouteGroup>)
    requires Extends(a, b, p, top) && Extends(b, c, q, top)
    ensures Extends(a, c, p + q, top)
  {
    assert c[..|a|] == b[..|b|][..|a|];
    forall k | 0 <= k < |p + q|
      ensures Matches(c[|a| + k], (p + q)[k])
      ensures (p + q)[k].topLevel ==> c[|a| + k].group == (p + q)[k].options.group.GetOr(top)
    {
      if k < |p| {
        assert c[|a| + k] == b[|a| + k];
      } else {
        assert c[|a| + k] == c[|b| + (k - |p|)];
      }
    }
  }

  lemma ExtendsNested(a: seq<DefinedRoute>, b: seq<DefinedRoute>, p: seq<Planned>, inner: Option<RouteGroup>, top: Option<RouteGroup>)
    requires Extends(a, b, p, inner)
    ensures Extends(a, b, Nested(p), top)
  {
  }

  /** What a block passed to the route-set builder does. */
  datatype SetCommand =
    | SetRoute(path: string, requestMethod: Value, options: RouteOptions)
    | SetGroup(name: string, body: seq<SetCommand>)
    | SetRaise

  /** Whether running `cmds` ends in an exception. */
  predicate SetRaises(cmds: seq<SetCommand>)
    decreases cmds
  {
    |cmds| > 0 && (SetRaises(cmds[..|cmds| - 1]) || SetRaisesOne(cmds[|cmds| - 1]))
  }

  predicate SetRaisesOne(c: SetCommand)
    decreases c
  {
    match c
    case SetRoute(_, _, _) => false
    case SetGroup(_, body) => SetRaises(body)
    case SetRaise => true
  }

  /** The routes running `cmds` adds, up to the first exception. The route-set
      builder overwrites any explicit group, so none is planned. */
  function SetPlan(cmds: seq<SetCommand>): seq<Planned>
    decreases cmds
  {
    if |cmds| == 0 then []
    else
      var init := cmds[..|cmds| - 1];
      if SetRaises(init) then SetPlan(init) else SetPlan(init) + SetPlanOne(cmds[|cmds| - 1])
  }

  function SetPlanOne(c: SetCommand): seq<Planned>
    decreases c
  {
    match c
    case SetRoute(p, m, o) => [Planned(p, m, o.(group := None), true)]
    case SetGroup(_, body) => Nested(SetPlan(body))
    case SetRaise => []
  }

  /** Once a prefix raises, the rest of the block is not run. */
  lemma {:induction false} SetRaisedPrefix(cmds: seq<SetCommand>, i: nat)
    requires i <= |cmds| && SetRaises(cmds[..i])
    ensures SetRaises(cmds) && SetPlan(cmds) == SetPlan(cmds[..i])
    decreases |cmds| - i
  {
    if i < |cmds| {
      assert cmds[..i + 1][..i] == cmds[..i];
      SetRaisedPrefix(cmds, i + 1);
    } else {
      assert cmds[..i] == cmds;
    }
  }

  /** `Rapid::DSLs::RouteSet` */
  class RouteSetDsl {
    const routeSet: RouteSet
    /** The stack of open groups, innermost last. */
    var groups: seq<RouteGroup>

    constructor(routeSet: RouteSet)
      ensures this.routeSet == routeSet && groups == []
    {
      this.routeSet := routeSet;
      groups := [];
    }

    /** `@groups&.last` */
    function Innermost(): Option<RouteGroup>
      reads this
    {
      if |groups| == 0 then None else Some(groups[|groups| - 1])
    }

    /** `route(path, request_method:, **options)`: one route, filed under
        the innermost open group whatever group the caller gave. */
    method Route(path: string, requestMethod: Value, options: RouteOptions) returns (r: DefinedRoute)
      modifies routeSet
      ensures r == DefinedRoute(path, requestMethod, options.controller.GetOr(Nil), Innermost(), options.others)
      ensures routeSet.routes == old(routeSet.routes) + [r]
    {
      r := DefinedRoute(path, requestMethod, options.controller.GetOr(Nil), Innermost(), options.others);
      routeSet.Add(r);
    }

    /** `route` as the group builder evidently relies on it: an explicit
        group is kept, and only a route without one is filed under the
        innermost open group. */
    method RouteKeepingGroup(path: string, requestMethod: Value, options: RouteOptions) returns (r: DefinedRoute)
      modifies routeSet
      ensures r == DefinedRoute(path, requestMethod, options.controller.GetOr(Nil), options.group.GetOr(Innermost()), options.others)
      ensures routeSet.routes == old(routeSet.routes) + [r]
    {
      r := DefinedRoute(path, requestMethod, options.controller.GetOr(Nil), options.group.GetOr(Innermost()), options.others);
      routeSet.Add(r);
    }

    /** `get`, `post`, `patch`, `put`, `delete` */
    method VerbRoute(verb: Verb, path: string, options: RouteOptions) returns (r: DefinedRoute)
      modifies routeSet
      ensures r == DefinedRoute(path, VerbMethod(verb), options.controller.GetOr(Nil), Innermost(), options.others)
      ensures routeSet.routes == old(routeSet.routes) + [r]
    {
      r := Route(path, VerbMethod(verb), options);
    }

    /** `group(name) { ... }`: a new group under the innermost one is open
        while the block runs, and the stack is restored afterwards even when
        the block raises. */
    method Group(name: string, body: seq<SetCommand>) returns (raised: bool, g: RouteGroup)
      modifies this, routeSet
      ensures fresh(g) && g.id == name && g.parent == old(Innermost())
      ensures groups == old(groups)
      ensures raised == SetRaises(body)
      ensures Extends(old(routeSet.routes), routeSet.routes, SetPlan(body), Some(g))
      decreases body, 1
    {
      g := new RouteGroup(name, Innermost());
      groups := groups + [g];
      raised := Run(body);
      groups := groups[..|groups| - 1];
    }

    /** Runs a block's calls in order, stopping at the first exception. */
    method Run(cmds: seq<SetCommand>) returns (raised: bool)
      modifies this, routeSet
      ensures groups == old(groups)
      ensures raised == SetRaises(cmds)
      ensures Extends(old(routeSet.routes), routeSet.routes, SetPlan(cmds), old(Innermost()))
      decreases cmds, 0
    {
      raised := false;
      var i := 0;
      ExtendsNone(routeSet.routes, Innermost());
      while i < |cmds| && !raised
        decreases |cmds| - i
        invariant 0 <= i <= |cmds|
        invariant groups == old(groups)
        invariant raised == SetRaises(cmds[..i])
        invariant Extends(old(routeSet.routes), routeSet.routes, SetPlan(cmds[..i]), old(Innermost()))
      {
        assert cmds[..i + 1][..i] == cmds[..i];
        ghost var before := routeSet.routes;
        match cmds[i] {
          case SetRoute(p, m, o) =>
            var r := Route(p, m, o);
            ExtendsTrans(old(routeSet.routes), before, routeSet.routes, SetPlan(cmds[..i]), SetPlanOne(cmds[i]), old(Innermost()));
          case SetGroup(n, b) =>
            var inner, g := Group(n, b);
            raised := inner;
            ExtendsNested(before, routeSet.routes, SetPlan(b), Some(g), old(Innermost()));
            ExtendsTrans(old(routeSet.routes), before, routeSet.routes, SetPlan(cmds[..i]), SetPlanOne(cmds[i]), old(Innermost()));
          case SetRaise =>
            raised := true;
            assert SetPlanOne(cmds[i]) == [];
            assert SetPlan(cmds[..i]) + SetPlanOne(cmds[i]) == SetPlan(cmds[..i]);
        }
        i := i + 1;
      }
      if raised {
        SetRaisedPrefix(cmds, i);
      } else {
        assert cmds[..i] == cmds;
      }
    }
  }

  /** What a block passed to the group builder does. */
  datatype GroupCommand =
    | GroupRoute(path: string, requestMethod: Value, options: RouteOptions)
    | GroupNested(id: string, body: seq<GroupCommand>)
    | GroupName(name: Value)
    | GroupDescription(description: Value)
    | GroupController(controller: Value)
    | GroupRaise

  predicate GroupRaises(cmds: seq<GroupCommand>)
    decreases cmds
  {
    |cmds| > 0 && (GroupRaises(cmds[..|cmds| - 1]) || GroupRaisesOne(cmds[|cmds| - 1]))
  }

  predicate GroupRaisesOne(c: GroupCommand)
    decreases c
  {
    match c
    case GroupNested(_, body) => GroupRaises(body)
    case GroupRaise => true
    case _ => false
  }

  /** The group attributes the setters change. */
  datatype Attribute = NameAttribute | DescriptionAttribute | ControllerAttribute

  /** The value a call sets `a` to, if it sets it. */
  function SetsAttribute(c: GroupCommand, a: Attribute): Option<Value> {
    match c
    case GroupName(v) => if a == NameAttribute then Some(v) else None
    case GroupDescription(v) => if a == DescriptionAttribute then Some(v) else None
    case GroupController(v) => if a == ControllerAttribute then Some(v) else None
    case _ => None
  }

  /** The value of attribute `a` after `cmds`, starting from `initial`: the
      last value set before any exception. */
  function AttributeAfter(cmds: seq<GroupCommand>, a: Attribute, initial: Value): Value {
    if |cmds| == 0 then initial
    else
      var init := cmds[..|cmds| - 1];
      if GroupRaises(init) then AttributeAfter(init, a, initial)
      else SetsAttribute(cmds[|cmds| - 1], a).GetOr(AttributeAfter(init, a, initial))
  }

  /** The routes running `cmds` adds, with the default controller starting
      as `controller`. A route without a controller key takes the default in
      force when it is defined; a nested group starts with none. */
  function GroupPlan(cmds: seq<GroupCommand>, controller: Value): seq<Planned>
    decreases cmds
  {
    if |cmds| == 0 then []
    else
      var init := cmds[..|cmds| - 1];
      if GroupRaises(init) then GroupPlan(init, controller)
      else GroupPlan(init, controller) + GroupPlanOne(cmds[|cmds| - 1], AttributeAfter(init, ControllerAttribute, controller))
  }

  function GroupPlanOne(c: GroupCommand, controller: Value): seq<Planned>
    decreases c
  {
    match c
    case GroupRoute(p, m, o) => [Planned(p, m, o.(controller := Some(o.controller.GetOr(controller))), true)]
    case GroupNested(_, body) => Nested(GroupPlan(body, Nil))
    case _ => []
  }

  /** The ids of the child groups appended: each nested group whose block
      did not raise, in order, up to the first exception. */
  function ChildIds(cmds: seq<GroupCommand>): seq<string> {
    if |cmds| == 0 then []
    else
      var init := cmds[..|cmds| - 1];
      if GroupRaises(init) then ChildIds(init) else ChildIds(init) + ChildIdsOne(cmds[|cmds| - 1])
  }

  function ChildIdsOne(c: GroupCommand): seq<string> {
    if c.GroupNested? && !GroupRaises(c.body) then [c.id] else []
  }

  lemma {:induction false} GroupRaisedPrefix(cmds: seq<GroupCommand>, i: nat, controller: Value)
    requires i <= |cmds| && GroupRaises(cmds[..i])
    ensures GroupRaises(cmds) && GroupPlan(cmds, controller) == GroupPlan(cmds[..i], controller)
    ensures ChildIds(cmds) == ChildIds(cmds[..i])
    ensures forall a, v :: AttributeAfter(cmds, a, v) == AttributeAfter(cmds[..i], a, v)
    decreases |cmds| - i
  {
    if i < |cmds| {
      assert cmds[..i + 1][..i] == cmds[..i];
      GroupRaisedPrefix(cmds, i + 1, controller);
    } else {
      assert cmds[..i] == cmds;
    }
  }

  /** One more call of a block that has not raised so far. */
  lemma GroupStep(cmds: seq<GroupCommand>, i: nat, controller: Value)
    requires i < |cmds| && !GroupRaises(cmds[..i])
    ensures GroupRaises(cmds[..i + 1]) == GroupRaisesOne(cmds[i])
    ensures GroupPlan(cmds[..i + 1], controller)
         == GroupPlan(cmds[..i], controller) + GroupPlanOne(cmds[i], AttributeAfter(cmds[..i], ControllerAttribute, controller))
    ensures ChildIds(cmds[..i + 1]) == ChildIds(cmds[..i]) + ChildIdsOne(cmds[i])
    ensures forall a, v :: AttributeAfter(cmds[..i + 1], a, v) == SetsAttribute(cmds[i], a).GetOr(AttributeAfter(cmds[..i], a, v))
  {
    assert cmds[..i + 1][..i] == cmds[..i];
  }

  /** The child list of `g` is `before` followed by new groups with the
      given ids, each nested under `g`. */
  predicate ChildrenAdded(g: RouteGroup, before: seq<RouteGroup>, after: seq<RouteGroup>, ids: seq<string>) {
    |after| == |before| + |ids| && after[..|before|] == before
    && forall k :: 0 <= k < |ids| ==>
         after[|before| + k].id == g.id + "." + ids[k] && after[|before| + k].parent == Some(g)
  }

  lemma ChildrenTrans(g: RouteGroup, a: seq<RouteGroup>, b: seq<RouteGroup>, c: seq<RouteGroup>, p: seq<string>, q: seq<string>)
    requires ChildrenAdded(g, a, b, p) && ChildrenAdded(g, b, c, q)
    ensures ChildrenAdded(g, a, c, p + q)
  {
    assert c[..|a|] == c[..|b|][..|a|];
    forall k | 0 <= k < |p + q|
      ensures c[|a| + k].id == g.id + "." + (p + q)[k] && c[|a| + k].parent == Some(g)
    {
      if k < |p| {
        assert c[|a| + k] == b[|a| + k];
      } else {
        assert c[|a| + k] == c[|b| + (k - |p|)];
      }
    }
  }

  /** `Rapid::DSLs::RouteGroup` */
  class RouteGroupDsl {
    /** The route-set builder of the route set (`@route_set.dsl`). */
    const setDsl: RouteSetDsl
    const group: RouteGroup

    constructor(setDsl: RouteSetDsl, group: RouteGroup)
      ensures this.setDsl == setDsl && this.group == group
    {
      this.setDsl := setDsl;
      this.group := group;
    }

    /** The options the route-set builder is called with: the controller key
        if given, else the group's default controller; this group unless a
        group key is given. */
    function Resolved(options: RouteOptions): (o: RouteOptions)
      reads group
      ensures o.controller == Some(options.controller.GetOr(group.defaultController))
      ensures o.group == Some(options.group.GetOr(Some(group)))
      ensures o.others == options.others
    {
      RouteOptions(Some(options.controller.GetOr(group.defaultController)), Some(options.group.GetOr(Some(group))), options.others)
    }

    /** `route(path, **options)` as written: the route-set builder drops the
        group it is given, so the route is filed under the route-set
        builder's innermost open group instead of this one. */
    method RouteAsWritten(path: string, requestMethod: Value, options: RouteOptions) returns (r: DefinedRoute)
      modifies setDsl.routeSet
      ensures r == DefinedRoute(path, requestMethod, options.controller.GetOr(group.defaultController),
                                setDsl.Innermost(), options.others)
      ensures setDsl.routeSet.routes == old(setDsl.routeSet.routes) + [r]
    {
      r := setDsl.Route(path, requestMethod, Resolved(options));
    }

    /** `route(path, **options)`, with the group it passes kept. */
    method Route(path: string, requestMethod: Value, options: RouteOptions) returns (r: DefinedRoute)
      modifies setDsl.routeSet
      ensures r == DefinedRoute(path, requestMethod, options.controller.GetOr(group.defaultController),
                         options.group.GetOr(Some(group)), options.others)
      ensures setDsl.routeSet.routes == old(setDsl.routeSet.routes) + [r]
    {
      r := setDsl.RouteKeepingGroup(path, requestMethod, Resolved(options));
    }

    /** The request-method helpers. */
    method VerbRoute(verb: Verb, path: string, options: RouteOptions) returns (r: DefinedRoute)
      modifies setDsl.routeSet
      ensures r == DefinedRoute(path, VerbMethod(verb), options.controller.GetOr(group.defaultController),
                         options.group.GetOr(Some(group)), options.others)
      ensures setDsl.routeSet.routes == old(setDsl.routeSet.routes) + [r]
    {
      r := Route(path, VerbMethod(verb), options);
    }

    /** `name(name)` */
    method Name(name: Value)
      modifies group
      ensures group.name == name
      ensures group.description == old(group.description) && group.defaultController == old(group.defaultController)
      ensures group.groups == old(group.groups)
    {
      group.name := name;
    }

    /** `description(description)` */
    method Description(description: Value)
      modifies group
      ensures group.description == description
      ensures group.name == old(group.name) && group.defaultController == old(group.defaultController)
      ensures group.groups == old(group.groups)
    {
      group.description := description;
    }

    /** `controller(controller)` */
    method Controller(controller: Value)
      modifies group
      ensures group.defaultController == controller
      ensures group.name == old(group.name) && group.description == old(group.description)
      ensures group.groups == old(group.groups)
    {
      group.defaultController := controller;
    }

    /** `group(id, &block)`: a child with id `<this id>.<id>` and this group
        as parent; its block runs in a builder of its own, and the child is
        appended only once the block has run without raising. */
    method Group(id: string, body: seq<GroupCommand>) returns (raised: bool, child: RouteGroup)
      modifies group, setDsl.routeSet
      ensures fresh(child) && child.id == group.id + "." + id && child.parent == Some(group)
      ensures raised == GroupRaises(body)
      ensures group.groups == if raised then old(group.groups) else old(group.groups) + [child]
      ensures group.name == old(group.name) && group.description == old(group.description)
      ensures group.defaultController == old(group.defaultController)
      ensures Extends(old(setDsl.routeSet.routes), setDsl.routeSet.routes, GroupPlan(body, Nil), Some(child))
      decreases body, 1
    {
      child := new RouteGroup(group.id + "." + id, Some(group));
      var dsl := new RouteGroupDsl(setDsl, child);
      raised := dsl.Run(body);
      if !raised {
        group.groups := group.groups + [child];
      }
    }

    /** Performs one call of a block. */
    method Step(c: GroupCommand) returns (raised: bool)
      modifies group, setDsl.routeSet
      ensures raised == GroupRaisesOne(c)
      ensures Extends(old(setDsl.routeSet.routes), setDsl.routeSet.routes, GroupPlanOne(c, old(group.defaultController)), Some(group))
      ensures ChildrenAdded(group, old(group.groups), group.groups, ChildIdsOne(c))
      ensures group.name == SetsAttribute(c, NameAttribute).GetOr(old(group.name))
      ensures group.description == SetsAttribute(c, DescriptionAttribute).GetOr(old(group.description))
      ensures group.defaultController == SetsAttribute(c, ControllerAttribute).GetOr(old(group.defaultController))
      decreases c, 2
    {
      raised := false;
      match c {
        case GroupRoute(p, m, o) =>
          var r := Route(p, m, o);
        case GroupNested(n, b) =>
          var child;
          raised, child := Group(n, b);
          ExtendsNested(old(setDsl.routeSet.routes), setDsl.routeSet.routes, GroupPlan(b, Nil), Some(child), Some(group));
        case GroupName(v) =>
          Name(v);
        case GroupDescription(v) =>
          Description(v);
        case GroupController(v) =>
          Controller(v);
        case GroupRaise =>
          raised := true;
      }
    }

    /** Runs a block's calls in order, stopping at the first exception. */
    method Run(cmds: seq<GroupCommand>) returns (raised: bool)
      modifies group, setDsl.routeSet
      ensures raised == GroupRaises(cmds)
      ensures Extends(old(setDsl.routeSet.routes), setDsl.routeSet.routes, GroupPlan(cmds, old(group.defaultController)), Some(group))
      ensures ChildrenAdded(group, old(group.groups), group.groups, ChildIds(cmds))
      ensures group.name == AttributeAfter(cmds, NameAttribute, old(group.name))
      ensures group.description == AttributeAfter(cmds, DescriptionAttribute, old(group.description))
      ensures group.defaultController == AttributeAfter(cmds, ControllerAttribute, old(group.defaultController))
      decreases cmds, 0
    {
      raised := false;
      var i := 0;
      ExtendsNone(setDsl.routeSet.routes, Some(group));
      while i < |cmds| && !raised
        decreases |cmds| - i
        invariant 0 <= i <= |cmds|
        invariant raised == GroupRaises(cmds[..i])
        invariant Extends(old(setDsl.routeSet.routes), setDsl.routeSet.routes, GroupPlan(cmds[..i], old(group.defaultController)), Some(group))
        invariant ChildrenAdded(group, old(group.groups), group.groups, ChildIds(cmds[..i]))
        invariant group.name == AttributeAfter(cmds[..i], NameAttribute, old(group.name))
        invariant group.description == AttributeAfter(cmds[..i], DescriptionAttribute, old(group.description))
        invariant group.defaultController == AttributeAfter(cmds[..i], ControllerAttribute, old(group.defaultController))
      {
        GroupStep(cmds, i, old(group.defaultController));
        ghost var routesBefore, groupsBefore := setDsl.routeSet.routes, group.groups;
        ghost var step := GroupPlanOne(cmds[i], group.defaultController);
        raised := Step(cmds[i]);
        ExtendsTrans(old(setDsl.routeSet.routes), routesBefore, setDsl.routeSet.routes,
                     GroupPlan(cmds[..i], old(group.defaultController)), step, Some(group));
        ChildrenTrans(group, old(group.groups), groupsBefore, group.groups, ChildIds(cmds[..i]), ChildIdsOne(cmds[i]));
        i := i + 1;
      }
      if raised {
        GroupRaisedPrefix(cmds, i, old(group.defaultController));
      } else {
        assert cmds[..i] == cmds;
      }
    }
  }

  /** A route defined through the group builder as written loses its group:
      outside any route-set group it is filed under no group at all. */
  method FindingExample() returns (r: DefinedRoute, g: RouteGroup)
    ensures r.group == None && r.path == "/users"
    ensures g.id == "users"
  {
    var routes := new RouteSet();
    var setDsl := new RouteSetDsl(routes);
    g := new RouteGroup("users", None);
    var dsl := new RouteGroupDsl(setDsl, g);
    r := dsl.RouteAsWritten("/users", Sym("get"), RouteOptions(None, None, []));
  }

  /** The same call with the group kept files the route under the group and
      its default controller. */
  method CorrectedExample() returns (r: DefinedRoute, g: RouteGroup)
    ensures r.group == Some(g) && r.path == "/users"
    ensures g.id == "users" && r.controller == Str("UsersController")
  {
    var routes := new RouteSet();
    var setDsl := new RouteSetDsl(routes);
    g := new RouteGroup("users", None);
    var dsl := new RouteGroupDsl(setDsl, g);
    dsl.Controller(Str("UsersController"));
    r := dsl.Route("/users", Sym("get"), RouteOptions(None, None, []));
  }

  /** Nested ids: a group `b` defined inside group `a` gets id `a.b`, and an
      explicit nil controller key overrides the default. */
  method NestingExample() returns (outer: RouteGroup, routes: RouteSet)
    ensures |outer.groups| == 1 && outer.groups[0].id == "a.b" && outer.groups[0].parent == Some(outer)
    ensures |routes.routes| == 2
    ensures routes.routes[0].controller == Str("C") && routes.routes[0].group == Some(outer)
    ensures routes.routes[1].controller == Nil
  {
    routes := new RouteSet();
    var setDsl := new RouteSetDsl(routes);
    outer := new RouteGroup("a", None);
    var dsl := new RouteGroupDsl(setDsl, outer);
    dsl.Controller(Str("C"));
    var x := dsl.Route("/x", Sym("get"), RouteOptions(None, None, []));
    var y := dsl.Route("/y", Sym("get"), RouteOptions(Some(Nil), None, []));
    var raised, child := dsl.Group("b", []);
    assert "a" + "." + "b" == "a.b";
  }

  /** A block that raises inside a route-set group: the route before the
      exception is kept and filed under the group, the one after it is never
      defined, and the group stack is empty again. */
  method RaiseExample() returns (routes: RouteSet, setDsl: RouteSetDsl, raised: bool, g: RouteGroup)
    ensures raised && setDsl.groups == []
    ensures |routes.routes| == 1 && routes.routes[0].path == "/before" && routes.routes[0].group == Some(g)
    ensures g.id == "api" && g.parent == None
  {
    routes := new RouteSet();
    setDsl := new RouteSetDsl(routes);
    var body := [SetRoute("/before", Sym("get"), RouteOptions(None, None, [])), SetRaise,
                 SetRoute("/after", Sym("get"), RouteOptions(None, None, []))];
    assert body[..1][..0] == [] && body[..2][..1] == body[..1] && body[..3] == body;
    assert SetRaises(body[..2]);
    SetRaisedPrefix(body, 2);
    assert SetPlan(body[..1]) == [Planned("/before", Sym("get"), RouteOptions(None, None, []), true)];
    ghost var plan := SetPlan(body);
    assert plan[0] == Planned("/before", Sym("get"), RouteOptions(None, None, []), true);
    raised, g := setDsl.Group("api", body);
    assert Matches(routes.routes[0], plan[0]);
  }
}
