# pyrekit-server route derivation, modelled in Dafny

pyrekit-server turns the methods of a `Server` subclass into Flask routes by
naming convention. A method `GET_users_profile(self, user_id: int)` becomes a
`GET` route at `/users/profile/<int:user_id>`. A method called `index` is
always served at `/` for `GET` and `POST`. Attributes that are not callable,
that start with `_`, or that carry no verb prefix are skipped. This project
models that derivation: `function_to_rule`, `parse_route`, `parse_arguments`
and `parse_routes` in `src/pyrekit-server/server.py`. It also models the
connection limit that `Server.__init__` computes from the thread count.

Files:

- `route_rules.dfy` (module `RouteRules`) covers `function_to_rule`,
  `parse_route` and `parse_arguments`. These are pure functions over strings
  and parameter lists.
- `route_table.dfy` (module `RouteTable`) covers `parse_routes`. The method
  `ParseRoutes` keeps the source's loop that appends to a list. It is proved
  equal to the specification function `DeriveRoutes`, and the lemmas about the
  table are stated about `DeriveRoutes`.
- `server_config.dfy` (module `ServerConfig`) covers the fields that
  `Server.__init__` sets, including `limit`.

Abstractions:

- Python reflection is replaced by plain data. A class attribute is
  `Attr(name, isCallable, params)`. A parameter is `Param(name, annot)`.
  `annot` is one of `AInt`, `AFloat`, `AStr` or `AOther`. The first three
  stand for the type objects `int`, `float` and `str`. `AOther` stands for no
  annotation, for a string annotation, and for any type outside the converter
  table.
- The attribute dictionary is a sequence in the dictionary's iteration order.
  Lemmas that need unique keys say so with `DistinctNames`.
- A route tuple `(rule, name, {"methods": [...]})` is `Route(rule, handler,
  methods)`. `Options` rebuilds the dictionary. It always has exactly one key,
  `"methods"`, and never `"endpoint"`. So `options.pop("endpoint", name)` at
  line 118 always falls back to the handler's name.
- The source tests `if found_method:`. Every verb is a non-empty string, so
  that truth test is the same as "a prefix matched" (`found.Some?`).
- `name[len(prefix):]` is Python slicing, which clamps at the end of the
  string. `Tail` models this, so `FunctionToRule` is total.
- Routing is deterministic. Deriving the table twice from the same attributes
  gives the same list, because `DeriveRoutes` is a function.

The connection limit is `100 if 100 > threads else threads + 3`, which is not
the same as `max(100, threads + 3)`. `LimitMatchesMaxIff` shows the two differ
exactly at 98 and 99 threads, where the conditional gives 100 and the maximum
gives 101 or 102.

`DecodeSegment` is not in the source. It reads a rendered segment back the way
a URL router reads a rule. Reading back a segment gives the parameter's name
and type, which checks the typing of `parse_arguments` independently.

## Model

| member | source | states |
|---|---|---|
| RouteRules.Tail | src/pyrekit-server/server.py:19 | the slice `name[n:]` has length `len(name) - n`, or 0 once `n` passes the end, and its character `i` is name character `n + i` |
| RouteRules.ReplaceUnderscores | src/pyrekit-server/server.py:21 | `str.replace('_', '/')`: same length, every `_` becomes `/`, every other character stays, no `_` remains |
| RouteRules.FunctionToRule | src/pyrekit-server/server.py:14-21 | the rule starts with `/`, contains no `_`, has length `1 + max(0, len(name) - len(prefix))`, and character `j` is name character `len(prefix) + j - 1` with `_` turned into `/` |
| RouteRules.ReplaceUnderscoresAppend | src/pyrekit-server/server.py:21 | replacing underscores distributes over concatenation |
| RouteRules.ReplaceUnderscoresJoin | src/pyrekit-server/server.py:21 | underscore-free words joined by `_` become the same words joined by `/` |
| RouteRules.FunctionToRuleOfWords | src/pyrekit-server/server.py:14-21 | `prefix + "w1_w2_..."` gives the rule `/w1/w2/...` |
| RouteTable.PrefixTableVerbs | src/pyrekit-server/server.py:29-34 | `HTTP_PREFIX_MAP` maps each prefix to the verb it spells followed by `_`, and its verbs are exactly GET, POST, PUT and DELETE |
| RouteRules.FindPrefix | src/pyrekit-server/server.py:36-39 | the loop over the prefix table returns None exactly when no prefix starts the name; otherwise it returns the first matching entry |
| RouteRules.PrefixesExclusive | src/pyrekit-server/server.py:29-34 | no name starts with two different prefixes of `GET_`, `POST_`, `PUT_`, `DELETE_` |
| RouteRules.HeadIndexOfTable | src/pyrekit-server/server.py:29-34 | the first two characters of each table prefix identify that entry |
| RouteRules.ParseRoute | src/pyrekit-server/server.py:24-39 | the verb is None exactly when no table prefix starts the name, and the rule is then `""`; otherwise the verb and rule are those of a matching prefix |
| RouteRules.ParseRouteOfPrefix | src/pyrekit-server/server.py:36-38 | whichever table prefix starts the name, `parse_route` returns exactly that prefix's verb and `function_to_rule(name, prefix)` |
| RouteRules.Converter | src/pyrekit-server/server.py:48-53 | the converter gives `"str"` exactly for a `str` annotation and for any annotation outside the table |
| RouteRules.Segment | src/pyrekit-server/server.py:63-66 | the f-string of one parameter: `/<name>` when the converter gives `"str"`, `/<type:name>` otherwise (stated by SegmentTyping and DecodeSegmentOfSegment) |
| RouteRules.Concat | src/pyrekit-server/server.py:68 | `"".join`: the result is as long as the parts together and begins with the first part |
| RouteRules.ParseArguments | src/pyrekit-server/server.py:42-68 | `parse_arguments`; ParseArgumentsEmpty, ParseArgumentsSingle and ParseArgumentsAppend determine it on every parameter list |
| RouteRules.ParseArgumentsShape | src/pyrekit-server/server.py:55-68 | the rendered arguments are empty exactly when every parameter is `self`, and otherwise start with `/` |
| RouteRules.NonSelfEmpty | src/pyrekit-server/server.py:56 | the filter leaves nothing exactly when every parameter is named `self` |
| RouteRules.NonSelf | src/pyrekit-server/server.py:55-56 | the filter keeps exactly the parameters not named `self`, never more than the input |
| RouteRules.Segments | src/pyrekit-server/server.py:58-66 | one segment per parameter, at the same position |
| RouteRules.NonSelfAppend | src/pyrekit-server/server.py:56 | the `self` filter keeps declaration order (it distributes over concatenation) |
| RouteRules.SegmentsAppend | src/pyrekit-server/server.py:63-66 | rendering segments distributes over concatenation |
| RouteRules.ConcatAppend | src/pyrekit-server/server.py:68 | `"".join` distributes over concatenation |
| RouteRules.ParseArgumentsAppend | src/pyrekit-server/server.py:42-68 | the arguments of `a + b` render as those of `a` followed by those of `b` |
| RouteRules.ParseArgumentsSingle | src/pyrekit-server/server.py:56-68 | one parameter renders as its segment, or as nothing when it is named `self` |
| RouteRules.ParseArgumentsEmpty | src/pyrekit-server/server.py:68 | no parameters render as the empty string |
| RouteRules.SegmentTyping | src/pyrekit-server/server.py:48-66 | `int` gives `/<int:name>`, `float` gives `/<float:name>`, `str` and anything else give `/<name>` |
| RouteRules.DecodeSegmentOfSegment | src/pyrekit-server/server.py:63-66 | reading a rendered segment back gives the parameter's name and its converter type, for every name without `:` |
| RouteTable.Hidden | src/pyrekit-server/server.py:79-80 | the `continue` guard: a non-callable is always skipped, and a callable is skipped exactly when its name starts with `_` |
| RouteTable.IndexAlwaysRouted | src/pyrekit-server/server.py:81-85 | a callable named `index` gets `("/", "index", [GET, POST])` whatever its parameters, and alone it forms that one-route table |
| RouteTable.RouteFor | src/pyrekit-server/server.py:78-92 | a produced route is well formed and carries the attribute's name as its handler |
| RouteTable.RouteForCases | src/pyrekit-server/server.py:79-92 | hidden attributes give nothing; a visible `index` gives `("/", "index", [GET, POST])` whatever its parameters; any other visible name gives a route exactly when some table prefix starts it, with rule `function_to_rule(name, prefix)` + `parse_arguments`, the attribute's name, and `[verb]` |
| RouteTable.RouteForVerb | src/pyrekit-server/server.py:87-92 | a callable whose name starts with a table prefix gets that prefix's verb, its rule followed by its argument segments, and its own name |
| RouteTable.Options | src/pyrekit-server/server.py:118 | the options dictionary has only the key `"methods"`, so no endpoint override exists |
| RouteTable.Collect | src/pyrekit-server/server.py:76-94 | keeping the present per-element results never yields more results than elements |
| RouteTable.CollectAppend | src/pyrekit-server/server.py:78-92 | collecting over `a + b` is collecting over `a`, then over `b` |
| RouteTable.CollectMember | src/pyrekit-server/server.py:78-92 | a value is collected exactly when some element produces it |
| RouteTable.DeriveRoutes | src/pyrekit-server/server.py:71-94 | the table never has more routes than there are attributes |
| RouteTable.ParseRoutes | src/pyrekit-server/server.py:71-94 | the loop with its `continue` branches builds exactly `DeriveRoutes(attrs)` |
| RouteTable.DeriveRoutesAppend | src/pyrekit-server/server.py:78-94 | routes come out in attribute order: the table of `a + b` is that of `a` followed by that of `b` |
| RouteTable.DeriveRoutesSingle | src/pyrekit-server/server.py:78-92 | a single attribute contributes at most its own route |
| RouteTable.DeriveRoutesMember | src/pyrekit-server/server.py:78-94 | a route is in the table exactly when some attribute produces it |
| RouteTable.DeriveRoutesWellFormed | src/pyrekit-server/server.py:78-94 | every route has a rule starting with `/`, a non-empty list of known verbs, and the name of a visible attribute as its handler |
| RouteTable.HiddenNeverRouted | src/pyrekit-server/server.py:79-80 | with distinct names, no route is ever named after a non-callable or underscore-prefixed attribute |
| RouteTable.DistinctHandlers | src/pyrekit-server/server.py:78-94 | with distinct attribute names, no handler name appears twice in the table |
| RouteTable.VerbRoute | src/pyrekit-server/server.py:87-92 | a callable `<VERB>_w1_w2...` with parameters `ps` gets the route `/w1/w2/...` + `parse_arguments(ps)` for that verb only |
| RouteTable.OrderExample | src/pyrekit-server/server.py:87-92 | `GET_order(self, order_id: int, note: str)` gets `/order/<int:order_id>/<note>` for GET |
| RouteTable.OrderArguments | src/pyrekit-server/server.py:56-68 | those parameters render as `/<int:order_id>/<note>` |
| RouteTable.ExampleApp | example.py:7-12 | the example class derives `[("/", "index", [GET, POST]), ("/json", "GET_json", [GET])]` |
| RouteTable.JsonRoute | example.py:11-12 | `GET_json(self)` gets `/json` for GET |
| ServerConfig.ConnectionLimit | src/pyrekit-server/server.py:139 | the limit is 100 below 100 threads and `threads + 3` from 100 up; it is always at least 100 and always above the thread count |
| ServerConfig.LimitMatchesMaxIff | src/pyrekit-server/server.py:139 | the limit equals `max(100, threads + 3)` exactly when the thread count is not 98 or 99 |
| ServerConfig.LimitAtNinetyEight | src/pyrekit-server/server.py:139 | 98 threads get a limit of 100, while `max(100, 98 + 3)` is 101 |
| ServerConfig.Server.constructor | src/pyrekit-server/server.py:132-139 | the new server keeps port, host and thread count (defaults 8000, "0.0.0.0", 4) and the limit computed from the thread count |
| ServerConfig.ExampleServer | example.py:16 | the example's server listens on 0.0.0.0:5000 with 4 threads and a limit of 100 |

## Left out

- `MetaServer`, which stores the table on the class and wraps `__init__` to call Flask's `add_url_rule` for each route. It is metaclass reflection plus calls into Flask, whose code is not part of this model. The model stops at the route table and at the endpoint name that registration would use.
- `CORS(self)` and the Flask constructor inside `Server.__init__`. They are library calls whose code is not part of this model.
- `Server.start` and its retry on the next port. It is a blocking socket call into waitress, and its bare `except` catches any error.
- `ServerProcess` and its `close`/`join`: process lifecycle.
- The `print` of each route and the logger setup in `Server.__init__`. They are diagnostics only.
- Python introspection (`callable`, `inspect.signature`). It is replaced by the records `Attr` and `Param`.
- The sleep loop and process control of `example.py`. Only its class definition and its constructor call are modelled.
- Unhashable annotations. `TYPE_CONVERTER_MAP.get(val, "str")` (server.py:53) hashes the annotation, so an annotation such as `[int]` raises `TypeError` inside `parse_arguments`, and the class definition then fails in `parse_routes`. `Annot` has no such value, so the model does not capture that error path.
- String annotations. An annotation written as a string, such as `"int"` (what every annotation becomes under `from __future__ import annotations`), is not a key of the converter map and renders as `/<name>`. It is `AOther` in the model, not `AInt`; `AInt`, `AFloat` and `AStr` stand only for the type objects `int`, `float` and `str`.
- Parameter kinds (`*args`, keyword-only) and default values. `parse_arguments` ignores them, so `Param` does not carry them.
