/** The route table a server class derives from its attributes
    (server.py, parse_routes). A class body is a sequence of attributes in
    definition order; each callable attribute with a recognised name adds one
    route `(rule, handler name, {"methods": [...]})`. */
module RouteTable {
  import opened RouteRules

  /** What the deriver sees of one class attribute: its name, whether it is
      callable, and the parameters of its signature in declaration order. */
  datatype Attr = Attr(name: string, isCallable: bool, params: seq<Param>)

  /** One entry of `routes_info`, `(rule, handler name, {"methods": methods})`;
      the options dictionary is rebuilt from `methods` by Options. */
  datatype Route = Route(rule: string, handler: string, methods: seq<string>)

  /** The options dictionary of a route. It holds the key "methods" and no
      other, in particular no "endpoint", so the endpoint registered for the
      route is the handler's own name. */
  function Options(r: Route): (m: map<string, seq<string>>)
    ensures m.Keys == {"methods"} && m["methods"] == r.methods
    ensures "endpoint" !in m
  {
    map["methods" := r.methods]
  }

  /** The verbs a route may carry. */
  const Verbs: set<string> := {"GET", "POST", "PUT", "DELETE"}

  /** Attributes that never become routes: non-callables and names with a
      leading underscore (`name.startswith("_")`). */
  function Hidden(a: Attr): (h: bool)
    ensures !a.isCallable ==> h
    ensures a.isCallable ==> (h <==> "_" <= a.name)
  {
    !a.isCallable || (|a.name| > 0 && a.name[0] == '_')
  }

  /** The route `index` always gets. */
  const IndexRoute: Route := Route("/", "index", ["GET", "POST"])

  /** A rule that starts at the root and a non-empty list of known verbs. */
  predicate WellFormed(r: Route)
  {
    |r.rule| > 0 && r.rule[0] == '/' &&
    |r.methods| > 0 && forall m :: m in r.methods ==> m in Verbs
  }

  /** The route one attribute contributes, if any (one turn of the loop in
      parse_routes). */
  function RouteFor(a: Attr): (r: Option<Route>)
    ensures r.Some? ==> r.value.handler == a.name && WellFormed(r.value)
  {
    if Hidden(a) then None
    else if a.name == "index" then Some(IndexRoute)
    else
      var (found, rule) := ParseRoute(a.name);
      if found.Some? then
        Some(Route(rule + ParseArguments(a.params), a.name, [found.value]))
      else None
  }

  /** Every prefix of the table is its verb followed by `_`, every verb is
      a known one, and every known verb has a prefix. */
  lemma PrefixTableVerbs()
    ensures forall k :: 0 <= k < |PrefixTable| ==>
      PrefixTable[k].0 == PrefixTable[k].1 + "_" && PrefixTable[k].1 in Verbs
    ensures forall v :: v in Verbs ==> exists k :: 0 <= k < |PrefixTable| && PrefixTable[k].1 == v
  {
    assert PrefixTable[0].1 == "GET" && PrefixTable[1].1 == "POST";
    assert PrefixTable[2].1 == "PUT" && PrefixTable[3].1 == "DELETE";
  }

  /** A callable `index` is served at `/` for GET and POST, whatever its
      parameters: its name does not start with `_`. */
  lemma IndexAlwaysRouted(a: Attr)
    requires a.isCallable && a.name == "index"
    ensures RouteFor(a) == Some(Route("/", "index", ["GET", "POST"]))
    ensures DeriveRoutes([a]) == [Route("/", "index", ["GET", "POST"])]
  {
    assert !Hidden(a);
    DeriveRoutesSingle(a);
  }

  /** What RouteFor answers for each kind of attribute. */
  lemma RouteForCases(a: Attr)
    ensures Hidden(a) ==> RouteFor(a) == None
    ensures !Hidden(a) && a.name == "index" ==> RouteFor(a) == Some(IndexRoute)
    ensures !Hidden(a) && a.name != "index" ==>
      (RouteFor(a).Some? <==> exists k :: 0 <= k < |PrefixTable| && PrefixTable[k].0 <= a.name)
    ensures RouteFor(a).Some? && a.name != "index" ==>
      exists k :: 0 <= k < |PrefixTable| && PrefixTable[k].0 <= a.name &&
        RouteFor(a).value ==
          Route(FunctionToRule(a.name, PrefixTable[k].0) + ParseArguments(a.params),
                a.name, [PrefixTable[k].1])
  {
  }

  function Emitted<R>(o: Option<R>): seq<R>
  {
    match o
    case None => []
    case Some(r) => [r]
  }

  /** Apply `f` to every element and keep the present results, in order. */
  function Collect<A, R>(f: A -> Option<R>, xs: seq<A>): (ys: seq<R>)
    ensures |ys| <= |xs|
  {
    if xs == [] then []
    else Collect(f, xs[..|xs| - 1]) + Emitted(f(xs[|xs| - 1]))
  }

  lemma {:induction false} CollectAppend<A, R>(f: A -> Option<R>, a: seq<A>, b: seq<A>)
    ensures Collect(f, a + b) == Collect(f, a) + Collect(f, b)
  {
    if b == [] {
      assert a + b == a;
    } else {
      var ab := a + b;
      assert ab[..|ab| - 1] == a + b[..|b| - 1];
      assert ab[|ab| - 1] == b[|b| - 1];
      CollectAppend(f, a, b[..|b| - 1]);
      calc {
        Collect(f, ab);
        Collect(f, a + b[..|b| - 1]) + Emitted(f(b[|b| - 1]));
        Collect(f, a) + Collect(f, b[..|b| - 1]) + Emitted(f(b[|b| - 1]));
        Collect(f, a) + Collect(f, b);
      }
    }
  }

  lemma {:induction false} CollectMember<A, R>(f: A -> Option<R>, xs: seq<A>, y: R)
    ensures y in Collect(f, xs) <==> exists i :: 0 <= i < |xs| && f(xs[i]) == Some(y)
  {
    if xs != [] {
      var init := xs[..|xs| - 1];
      CollectMember(f, init, y);
      if y in Collect(f, init) {
        var i :| 0 <= i < |init| && f(init[i]) == Some(y);
        assert xs[i] == init[i];
      }
      if exists i :: 0 <= i < |xs| && f(xs[i]) == Some(y) {
        var i :| 0 <= i < |xs| && f(xs[i]) == Some(y);
        if i < |init| {
          assert init[i] == xs[i];
        }
      }
    }
  }

  /** The whole table, in attribute order. */
  function DeriveRoutes(attrs: seq<Attr>): (routes: seq<Route>)
    ensures |routes| <= |attrs|
  {
    Collect(RouteFor, attrs)
  }

  /** `parse_routes`: the loop that appends each attribute's route. */
  method ParseRoutes(attrs: seq<Attr>) returns (routes: seq<Route>)
    ensures routes == DeriveRoutes(attrs)
  {
    routes := [];
    for i := 0 to |attrs|
      invariant routes == DeriveRoutes(attrs[..i])
    {
      assert attrs[..i + 1][..i] == attrs[..i];
      var a := attrs[i];
      if !a.isCallable || (|a.name| > 0 && a.name[0] == '_') {
        continue;
      }
      if a.name == "index" {
        routes := routes + [Route("/", "index", ["GET", "POST"])];
        continue;
      }
      var (found, rule) := ParseRoute(a.name);
      if found.Some? {
        rule := rule + ParseArguments(a.params);
        routes := routes + [Route(rule, a.name, [found.value])];
      }
    }
    assert attrs[..|attrs|] == attrs;
  }

  /** The table of `a + b` is the table of `a` followed by that of `b`:
      routes keep the order of the attributes. */
  lemma DeriveRoutesAppend(a: seq<Attr>, b: seq<Attr>)
    ensures DeriveRoutes(a + b) == DeriveRoutes(a) + DeriveRoutes(b)
  {
    CollectAppend(RouteFor, a, b);
  }

  /** A single attribute contributes exactly its own route. */
  lemma DeriveRoutesSingle(a: Attr)
    ensures DeriveRoutes([a]) == Emitted(RouteFor(a))
  {
    assert [a][..0] == [];
  }

  /** A route is in the table exactly when some attribute produces it. */
  lemma DeriveRoutesMember(attrs: seq<Attr>, r: Route)
    ensures r in DeriveRoutes(attrs) <==>
      exists i :: 0 <= i < |attrs| && RouteFor(attrs[i]) == Some(r)
  {
    CollectMember(RouteFor, attrs, r);
  }

  /** Every route of the table is well formed and named after a visible
      attribute. */
  lemma DeriveRoutesWellFormed(attrs: seq<Attr>)
    ensures forall r :: r in DeriveRoutes(attrs) ==>
      WellFormed(r) &&
      exists i :: 0 <= i < |attrs| && !Hidden(attrs[i]) && attrs[i].name == r.handler
  {
    forall r | r in DeriveRoutes(attrs)
      ensures WellFormed(r) &&
        exists i :: 0 <= i < |attrs| && !Hidden(attrs[i]) && attrs[i].name == r.handler
    {
      DeriveRoutesMember(attrs, r);
      var i :| 0 <= i < |attrs| && RouteFor(attrs[i]) == Some(r);
      RouteForCases(attrs[i]);
    }
  }

  /** Attribute names form a dictionary's key set. */
  predicate DistinctNames(attrs: seq<Attr>)
  {
    forall i, j :: 0 <= i < j < |attrs| ==> attrs[i].name != attrs[j].name
  }

  /** Hidden attributes (non-callable or underscore-prefixed) never get a
      route under their name. */
  lemma HiddenNeverRouted(attrs: seq<Attr>, i: nat)
    requires DistinctNames(attrs)
    requires i < |attrs| && Hidden(attrs[i])
    ensures forall r :: r in DeriveRoutes(attrs) ==> r.handler != attrs[i].name
  {
    forall r | r in DeriveRoutes(attrs) ensures r.handler != attrs[i].name {
      DeriveRoutesMember(attrs, r);
      var j :| 0 <= j < |attrs| && RouteFor(attrs[j]) == Some(r);
      assert j != i;
    }
  }

  /** Distinct attribute names give distinct handler names, so no handler is
      registered twice. */
  lemma {:induction false} DistinctHandlers(attrs: seq<Attr>)
    requires DistinctNames(attrs)
    ensures forall i, j :: 0 <= i < j < |DeriveRoutes(attrs)| ==>
      DeriveRoutes(attrs)[i].handler != DeriveRoutes(attrs)[j].handler
  {
    if attrs != [] {
      var init, last := attrs[..|attrs| - 1], attrs[|attrs| - 1];
      DistinctHandlers(init);
      var routes := DeriveRoutes(attrs);
      var front := DeriveRoutes(init);
      forall i, j | 0 <= i < j < |routes| ensures routes[i].handler != routes[j].handler {
        if j >= |front| {
          assert routes[i] in front;
          DeriveRoutesMember(init, routes[i]);
          var k :| 0 <= k < |init| && RouteFor(init[k]) == Some(routes[i]);
          assert routes[j] == RouteFor(last).value;
          assert init[k] == attrs[k];
        } else {
          assert routes[i] == front[i] && routes[j] == front[j];
        }
      }
    }
  }

  /** A callable starting with a verb prefix gets that verb's route. */
  lemma RouteForVerb(a: Attr, k: nat)
    requires a.isCallable && k < |PrefixTable| && PrefixTable[k].0 <= a.name
    ensures RouteFor(a) ==
      Some(Route(FunctionToRule(a.name, PrefixTable[k].0) + ParseArguments(a.params),
                 a.name, [PrefixTable[k].1]))
  {
    assert a.name[0] == PrefixTable[k].0[0];
    assert !Hidden(a) && a.name != "index";
    ParseRouteOfPrefix(a.name, k);
  }

  /** A handler named `<VERB>_<w1>_<w2>...` with underscore-free words is
      routed at `/<w1>/<w2>/...` plus its parameter segments, for that verb
      alone. */
  lemma VerbRoute(k: nat, words: seq<string>, params: seq<Param>)
    requires k < |PrefixTable|
    requires forall w :: 0 <= w < |words| ==> '_' !in words[w]
    ensures var name := PrefixTable[k].0 + Join(words, '_');
      RouteFor(Attr(name, true, params)) ==
        Some(Route("/" + Join(words, '/') + ParseArguments(params), name,
                   [PrefixTable[k].1]))
  {
    var prefix := PrefixTable[k].0;
    var name := prefix + Join(words, '_');
    assert prefix <= name;
    RouteForVerb(Attr(name, true, params), k);
    FunctionToRuleOfWords(prefix, words);
  }

  /** `GET_order(self, order_id: int, note: str)` is routed at
      `/order/<int:order_id>/<note>` for GET. */
  lemma OrderExample(a: Attr)
    requires a == Attr("GET_order", true,
      [Param("self", AOther), Param("order_id", AInt), Param("note", AStr)])
    ensures RouteFor(a) == Some(Route("/order/<int:order_id>/<note>", "GET_order", ["GET"]))
  {
    RuleOfWord(a.name, "order");
    RouteForVerb(a, 0);
    OrderRuleWithArguments(a);
  }

  // The small lemmas from here to the end of the module each carry out one
  // computation on literal strings: OrderRule and JsonRule are RuleOfWord,
  // IntSegment and StrSegment are SegmentTyping, at one literal each.
  // Kept apart so that the solver never has to unfold several literals in
  // one proof.

  lemma OrderRuleWithArguments(a: Attr)
    requires a == Attr("GET_order", true,
      [Param("self", AOther), Param("order_id", AInt), Param("note", AStr)])
    ensures FunctionToRule(a.name, PrefixTable[0].0) + ParseArguments(a.params) ==
      "/order/<int:order_id>/<note>"
  {
    OrderRule(a.name);
    OrderArguments(a.params);
    OrderRuleText();
  }

  lemma OrderRuleText()
    ensures "/order" + "/<int:order_id>/<note>" == "/order/<int:order_id>/<note>"
  {
  }

  /** `GET_<word>` for a word without underscores has the rule `/<word>`. */
  lemma RuleOfWord(name: string, word: string)
    requires name == "GET_" + word && '_' !in word
    ensures PrefixTable[0].0 <= name
    ensures FunctionToRule(name, PrefixTable[0].0) == "/" + word
  {
    assert Tail(name, 4) == word;
    UnderscoreFreeUnchanged(word);
  }

  lemma OrderRule(name: string)
    requires name == "GET_order"
    ensures FunctionToRule(name, PrefixTable[0].0) == "/order"
  {
    RuleOfWord(name, "order");
  }

  lemma OrderArguments(ps: seq<Param>)
    requires ps == [Param("self", AOther), Param("order_id", AInt), Param("note", AStr)]
    ensures ParseArguments(ps) == "/<int:order_id>/<note>"
  {
    var p0, p1, p2 := ps[0], ps[1], ps[2];
    IntSegment(p1);
    StrSegment(p2);
    assert "/<int:order_id>" + "/<note>" == "/<int:order_id>/<note>";
    ParseArgumentsSingle(p0);
    ParseArgumentsSingle(p1);
    ParseArgumentsSingle(p2);
    ParseArgumentsAppend([p1], [p2]);
    assert [p1] + [p2] == [p1, p2];
    ParseArgumentsAppend([p0], [p1, p2]);
    assert [p0] + [p1, p2] == ps;
  }

  lemma IntSegment(p: Param)
    requires p == Param("order_id", AInt)
    ensures Segment(p) == "/<int:order_id>"
  {
    SegmentTyping(p.name, p.annot);
  }

  lemma StrSegment(p: Param)
    requires p == Param("note", AStr)
    ensures Segment(p) == "/<note>"
  {
    SegmentTyping(p.name, p.annot);
  }

  /** The example application: `index` and a parameterless `GET_json`, next
      to the non-callable dunder entries of its class body. */
  lemma ExampleApp(attrs: seq<Attr>)
    requires attrs == [
      Attr("__module__", false, []),
      Attr("__qualname__", false, []),
      Attr("index", true, [Param("self", AOther)]),
      Attr("GET_json", true, [Param("self", AOther)])]
    ensures DeriveRoutes(attrs) ==
      [Route("/", "index", ["GET", "POST"]), Route("/json", "GET_json", ["GET"])]
  {
    assert attrs == [attrs[0]] + [attrs[1]] + [attrs[2]] + [attrs[3]];
    DeriveRoutesAppend([attrs[0]] + [attrs[1]] + [attrs[2]], [attrs[3]]);
    DeriveRoutesAppend([attrs[0]] + [attrs[1]], [attrs[2]]);
    DeriveRoutesAppend([attrs[0]], [attrs[1]]);
    DeriveRoutesSingle(attrs[0]);
    DeriveRoutesSingle(attrs[1]);
    DeriveRoutesSingle(attrs[2]);
    DeriveRoutesSingle(attrs[3]);
    assert RouteFor(attrs[0]) == None && RouteFor(attrs[1]) == None by {
      assert Hidden(attrs[0]) && Hidden(attrs[1]);
    }
    assert RouteFor(attrs[2]) == Some(IndexRoute);
    JsonRoute(attrs[3]);
  }

  lemma JsonRoute(a: Attr)
    requires a == Attr("GET_json", true, [Param("self", AOther)])
    ensures RouteFor(a) == Some(Route("/json", "GET_json", ["GET"]))
  {
    RuleOfWord(a.name, "json");
    RouteForVerb(a, 0);
    JsonRuleWithArguments(a);
  }

  lemma JsonRuleWithArguments(a: Attr)
    requires a == Attr("GET_json", true, [Param("self", AOther)])
    ensures FunctionToRule(a.name, PrefixTable[0].0) + ParseArguments(a.params) == "/json"
  {
    JsonRule(a.name);
    SelfOnlyArguments(a.params);
  }

  lemma JsonRule(name: string)
    requires name == "GET_json"
    ensures FunctionToRule(name, PrefixTable[0].0) == "/json"
  {
    RuleOfWord(name, "json");
  }

  lemma SelfOnlyArguments(ps: seq<Param>)
    requires ps == [Param("self", AOther)]
    ensures ParseArguments(ps) == ""
  {
    ParseArgumentsSingle(ps[0]);
  }
}
