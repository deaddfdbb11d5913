/** Naming-convention rules of the route deriver: how a handler's name becomes
    an HTTP verb and a URL rule, and how its parameters become typed path
    segments (server.py, function_to_rule, parse_route, parse_arguments). */
module RouteRules {

  datatype Option<T> = None | Some(value: T)

  // ---------------------------------------------------------------------------
  // function_to_rule
  // ---------------------------------------------------------------------------

  /** Python's `s[n:]` for n >= 0: empty once n passes the end. */
  function Tail(s: string, n: nat): (r: string)
    ensures |r| == if n <= |s| then |s| - n else 0
    ensures forall i :: 0 <= i < |r| ==> r[i] == s[n + i]
  {
    if n <= |s| then s[n..] else []
  }

  /** Python's `s.replace('_', '/')`. */
  function ReplaceUnderscores(s: string): (r: string)
    ensures |r| == |s|
    ensures forall i :: 0 <= i < |s| ==> r[i] == (if s[i] == '_' then '/' else s[i])
    ensures '_' !in r
  {
    if s == [] then []
    else [if s[0] == '_' then '/' else s[0]] + ReplaceUnderscores(s[1..])
  }

  /** `function_to_rule`: drop the prefix's length of characters from the name,
      turn every underscore into a path separator and put a `/` in front. */
  function FunctionToRule(name: string, prefix: string): (rule: string)
    ensures |rule| == 1 + (if |prefix| <= |name| then |name| - |prefix| else 0)
    ensures rule[0] == '/'
    ensures '_' !in rule
    ensures forall j :: 1 <= j < |rule| ==>
      rule[j] == (if name[|prefix| + j - 1] == '_' then '/' else name[|prefix| + j - 1])
  {
    "/" + ReplaceUnderscores(Tail(name, |prefix|))
  }

  /** `sep.join(segs)` for a one-character separator. */
  function Join(segs: seq<string>, sep: char): string
  {
    if segs == [] then ""
    else if |segs| == 1 then segs[0]
    else segs[0] + [sep] + Join(segs[1..], sep)
  }

  lemma {:induction false} ReplaceUnderscoresAppend(a: string, b: string)
    ensures ReplaceUnderscores(a + b) == ReplaceUnderscores(a) + ReplaceUnderscores(b)
  {
    if a != [] {
      assert (a + b)[1..] == a[1..] + b;
      ReplaceUnderscoresAppend(a[1..], b);
    }
  }

  /** A name made of underscore-free words joined by `_` is rewritten into
      the same words joined by `/`. */
  lemma {:induction false} ReplaceUnderscoresJoin(segs: seq<string>)
    requires forall k :: 0 <= k < |segs| ==> '_' !in segs[k]
    ensures ReplaceUnderscores(Join(segs, '_')) == Join(segs, '/')
  {
    if |segs| == 1 {
      UnderscoreFreeUnchanged(segs[0]);
    } else if |segs| > 1 {
      ReplaceUnderscoresAppend(segs[0] + "_", Join(segs[1..], '_'));
      ReplaceUnderscoresAppend(segs[0], "_");
      UnderscoreFreeUnchanged(segs[0]);
      ReplaceUnderscoresJoin(segs[1..]);
    }
  }

  lemma UnderscoreFreeUnchanged(s: string)
    requires '_' !in s
    ensures ReplaceUnderscores(s) == s
  {
  }

  /** `<VERB>_<w1>_<w2>...` yields the rule `/<w1>/<w2>/...`. */
  lemma FunctionToRuleOfWords(prefix: string, segs: seq<string>)
    requires forall k :: 0 <= k < |segs| ==> '_' !in segs[k]
    ensures FunctionToRule(prefix + Join(segs, '_'), prefix) == "/" + Join(segs, '/')
  {
    var name := prefix + Join(segs, '_');
    assert Tail(name, |prefix|) == Join(segs, '_');
    ReplaceUnderscoresJoin(segs);
  }

  // ---------------------------------------------------------------------------
  // parse_route
  // ---------------------------------------------------------------------------

  /** `HTTP_PREFIX_MAP`, in its iteration order. */
  const PrefixTable: seq<(string, string)> :=
    [("GET_", "GET"), ("POST_", "POST"), ("PUT_", "PUT"), ("DELETE_", "DELETE")]

  /** The loop over the prefix table: the first entry whose prefix begins
      `name`, or None when no entry does. */
  function FindPrefix(name: string, table: seq<(string, string)>): (r: Option<nat>)
    ensures r.None? <==> forall k :: 0 <= k < |table| ==> !(table[k].0 <= name)
    ensures r.Some? ==> r.value < |table| && table[r.value].0 <= name
    ensures r.Some? ==> forall k :: 0 <= k < r.value ==> !(table[k].0 <= name)
  {
    if table == [] then None
    else if table[0].0 <= name then Some(0)
    else match FindPrefix(name, table[1..])
      case None => None
      case Some(k) => Some(k + 1)
  }

  /** The prefixes of the table are mutually exclusive: no name starts with two
      of them. */
  lemma PrefixesExclusive(name: string, i: nat, j: nat)
    requires i < |PrefixTable| && j < |PrefixTable|
    requires PrefixTable[i].0 <= name && PrefixTable[j].0 <= name
    ensures i == j
  {
    assert PrefixTable[i].0[..2] == name[..2] == PrefixTable[j].0[..2];
    HeadIndexOfTable(i);
    HeadIndexOfTable(j);
  }

  /** Which table entry a name's first two characters select. */
  function HeadIndex(h: string): int
  {
    if h == "GE" then 0 else if h == "PO" then 1 else if h == "PU" then 2
    else if h == "DE" then 3 else -1
  }

  lemma HeadIndexOfTable(k: nat)
    requires k < |PrefixTable|
    ensures HeadIndex(PrefixTable[k].0[..2]) == k
  {
    assert PrefixTable[0].0[..2] == "GE" && PrefixTable[1].0[..2] == "PO";
    assert PrefixTable[2].0[..2] == "PU" && PrefixTable[3].0[..2] == "DE";
  }

  /** `parse_route`: the verb of the prefix the name starts with and the rule
      derived from the name, or `(None, "")`. */
  function ParseRoute(name: string): (r: (Option<string>, string))
    ensures r.0.None? <==> forall k :: 0 <= k < |PrefixTable| ==> !(PrefixTable[k].0 <= name)
    ensures r.0.None? ==> r.1 == ""
    ensures r.0.Some? ==>
      exists k :: 0 <= k < |PrefixTable| && PrefixTable[k].0 <= name &&
        r.0.value == PrefixTable[k].1 && r.1 == FunctionToRule(name, PrefixTable[k].0)
  {
    match FindPrefix(name, PrefixTable)
    case None => (None, "")
    case Some(k) => (Some(PrefixTable[k].1), FunctionToRule(name, PrefixTable[k].0))
  }

  /** Whichever prefix of the table a name starts with, parse_route answers
      with exactly that prefix's verb and rule. */
  lemma {:induction false} ParseRouteOfPrefix(name: string, k: nat)
    requires k < |PrefixTable| && PrefixTable[k].0 <= name
    ensures ParseRoute(name) == (Some(PrefixTable[k].1), FunctionToRule(name, PrefixTable[k].0))
  {
    var r := ParseRoute(name);
    var j :| 0 <= j < |PrefixTable| && PrefixTable[j].0 <= name &&
      r.0.value == PrefixTable[j].1 && r.1 == FunctionToRule(name, PrefixTable[j].0);
    PrefixesExclusive(name, j, k);
  }

  // ---------------------------------------------------------------------------
  // parse_arguments
  // ---------------------------------------------------------------------------

  /** A parameter's annotation: the type objects int, float and str, or
      AOther for no annotation, a string annotation, or any other hashable
      value outside `TYPE_CONVERTER_MAP`. */
  datatype Annot = AInt | AFloat | AStr | AOther

  datatype Param = Param(name: string, annot: Annot)

  /** `converter`: the type name, with "str" as the fallback. */
  function Converter(a: Annot): (t: string)
    ensures t == "str" <==> a == AStr || a == AOther
  {
    match a
    case AInt => "int"
    case AFloat => "float"
    case _ => "str"
  }

  /** One path segment: `/<name>` for a string, `/<type:name>` otherwise. */
  function Segment(p: Param): string
  {
    var t := Converter(p.annot);
    if t == "str" then "/<" + p.name + ">" else "/<" + t + ":" + p.name + ">"
  }

  /** The `filter` that drops every parameter named `self`. */
  function NonSelf(ps: seq<Param>): (r: seq<Param>)
    ensures |r| <= |ps|
    ensures forall p :: p in r <==> p in ps && p.name != "self"
  {
    if ps == [] then []
    else (if ps[0].name == "self" then [] else [ps[0]]) + NonSelf(ps[1..])
  }

  /** The `map` from parameters to their segments. */
  function Segments(ps: seq<Param>): (r: seq<string>)
    ensures |r| == |ps|
    ensures forall i :: 0 <= i < |ps| ==> r[i] == Segment(ps[i])
  {
    if ps == [] then [] else [Segment(ps[0])] + Segments(ps[1..])
  }

  /** The summed length of some strings. */
  function TotalLength(ss: seq<string>): nat
  {
    if ss == [] then 0 else |ss[0]| + TotalLength(ss[1..])
  }

  /** `"".join(...)`: as long as its parts together, starting with the first. */
  function Concat(ss: seq<string>): (r: string)
    ensures |r| == TotalLength(ss)
    ensures ss != [] ==> ss[0] <= r
  {
    if ss == [] then "" else ss[0] + Concat(ss[1..])
  }

  /** `parse_arguments`: filter, map to segments, and join.
      ParseArgumentsEmpty, ParseArgumentsSingle and ParseArgumentsAppend
      determine it completely; ParseArgumentsShape gives its outline. */
  function ParseArguments(ps: seq<Param>): string
  {
    Concat(Segments(NonSelf(ps)))
  }

  /** The rendered arguments are empty exactly when every parameter is
      `self`; otherwise they form a path suffix starting with `/`. */
  lemma ParseArgumentsShape(ps: seq<Param>)
    ensures ParseArguments(ps) == "" <==> forall i :: 0 <= i < |ps| ==> ps[i].name == "self"
    ensures ParseArguments(ps) != "" ==> ParseArguments(ps)[0] == '/'
  {
    var kept := NonSelf(ps);
    NonSelfEmpty(ps);
    if kept != [] {
      assert Segments(kept)[0] == Segment(kept[0]);
    }
  }

  /** Nothing is left after the filter exactly when every parameter is `self`. */
  lemma NonSelfEmpty(ps: seq<Param>)
    ensures NonSelf(ps) == [] <==> forall i :: 0 <= i < |ps| ==> ps[i].name == "self"
  {
    var kept := NonSelf(ps);
    if kept != [] {
      assert kept[0] in ps;
    }
  }

  lemma {:induction false} NonSelfAppend(a: seq<Param>, b: seq<Param>)
    ensures NonSelf(a + b) == NonSelf(a) + NonSelf(b)
  {
    if a != [] {
      assert (a + b)[0] == a[0];
      assert (a + b)[1..] == a[1..] + b;
      NonSelfAppend(a[1..], b);
      var h := if a[0].name == "self" then [] else [a[0]];
      calc {
        NonSelf(a + b);
        h + NonSelf(a[1..] + b);
        h + (NonSelf(a[1..]) + NonSelf(b));
        (h + NonSelf(a[1..])) + NonSelf(b);
      }
    } else {
      assert a + b == b;
    }
  }

  lemma {:induction false} ConcatAppend(a: seq<string>, b: seq<string>)
    ensures Concat(a + b) == Concat(a) + Concat(b)
  {
    if a != [] {
      assert (a + b)[0] == a[0];
      assert (a + b)[1..] == a[1..] + b;
      ConcatAppend(a[1..], b);
      calc {
        Concat(a + b);
        a[0] + Concat(a[1..] + b);
        a[0] + (Concat(a[1..]) + Concat(b));
        (a[0] + Concat(a[1..])) + Concat(b);
      }
    } else {
      assert a + b == b;
    }
  }

  lemma SegmentsAppend(a: seq<Param>, b: seq<Param>)
    ensures Segments(a + b) == Segments(a) + Segments(b)
  {
    var l, r := Segments(a + b), Segments(a) + Segments(b);
    assert |l| == |r|;
    forall i | 0 <= i < |l| ensures l[i] == r[i] {
      if i < |a| { assert (a + b)[i] == a[i]; } else { assert (a + b)[i] == b[i - |a|]; }
    }
  }

  /** The arguments of `a + b` render as those of `a` followed by those of
      `b`: segments keep declaration order. */
  lemma ParseArgumentsAppend(a: seq<Param>, b: seq<Param>)
    ensures ParseArguments(a + b) == ParseArguments(a) + ParseArguments(b)
  {
    NonSelfAppend(a, b);
    var ka, kb := NonSelf(a), NonSelf(b);
    SegmentsAppend(ka, kb);
    ConcatAppend(Segments(ka), Segments(kb));
  }

  /** A single parameter contributes its segment, or nothing when it is
      `self`; with ParseArgumentsAppend this says there is exactly one segment
      per non-`self` parameter. */
  lemma ParseArgumentsSingle(p: Param)
    ensures ParseArguments([p]) == if p.name == "self" then "" else Segment(p)
  {
    assert [p][1..] == [];
    if p.name != "self" {
      assert Segments([p]) == [Segment(p)];
      assert Concat([Segment(p)]) == Segment(p) + Concat([]);
    }
  }

  lemma ParseArgumentsEmpty()
    ensures ParseArguments([]) == ""
  {
  }

  /** The typing of the rendered segments, one annotation at a time. */
  lemma SegmentTyping(n: string, a: Annot)
    ensures a == AInt ==> Segment(Param(n, a)) == "/<int:" + n + ">"
    ensures a == AFloat ==> Segment(Param(n, a)) == "/<float:" + n + ">"
    ensures a == AStr || a == AOther ==> Segment(Param(n, a)) == "/<" + n + ">"
  {
  }

  // ---------------------------------------------------------------------------
  // Reading a segment back, as the URL router that receives the rule does
  // ---------------------------------------------------------------------------

  datatype Kind = IntKind | FloatKind | StrKind

  function KindOf(a: Annot): Kind
  {
    match a
    case AInt => IntKind
    case AFloat => FloatKind
    case _ => StrKind
  }

  /** The index of the first `c` in `s`, if any. */
  function IndexOf(s: string, c: char): (r: Option<nat>)
    ensures r.None? <==> c !in s
    ensures r.Some? ==> r.value < |s| && s[r.value] == c && c !in s[..r.value]
  {
    if s == [] then None
    else if s[0] == c then Some(0)
    else match IndexOf(s[1..], c)
      case None => None
      case Some(k) => (assert s[..k + 1] == [s[0]] + s[1..][..k]; Some(k + 1))
  }

  /** Parses `/<name>`, `/<int:name>` or `/<float:name>`. */
  function DecodeSegment(s: string): Option<(string, Kind)>
  {
    if |s| < 3 || s[..2] != "/<" || s[|s| - 1] != '>' then None
    else
      var inner := s[2..|s| - 1];
      match IndexOf(inner, ':')
      case None => Some((inner, StrKind))
      case Some(k) =>
        if inner[..k] == "int" then Some((inner[k + 1..], IntKind))
        else if inner[..k] == "float" then Some((inner[k + 1..], FloatKind))
        else None
  }

  /** The rendered segment gives back the parameter's name and its type, for
      every name without a `:` (a Python identifier never has one). */
  lemma DecodeSegmentOfSegment(p: Param)
    requires ':' !in p.name
    ensures DecodeSegment(Segment(p)) == Some((p.name, KindOf(p.annot)))
  {
    var s := Segment(p);
    match p.annot
    case AInt =>
      assert s[2..|s| - 1] == "int:" + p.name;
      assert ("int:" + p.name)[..3] == "int";
      assert ("int:" + p.name)[4..] == p.name;
    case AFloat =>
      assert s[2..|s| - 1] == "float:" + p.name;
      assert ("float:" + p.name)[..5] == "float";
      assert ("float:" + p.name)[6..] == p.name;
    case AStr =>
      assert s[2..|s| - 1] == p.name;
    case AOther =>
      assert s[2..|s| - 1] == p.name;
  }
}
