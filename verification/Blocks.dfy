/** The view validator: one stateful preorder walk that must equal a flat, declarative predicate. */
module Blocks {
  import opened Prelude

  const MAX_NODES := 200
  const MAX_DEPTH := 8

  datatype Action =
    | NoAction                              // missing, not an object, or an unknown kind
    | Submit(extra: bool)                   // `extra`: fields besides the allowed ones
    | Act(id: string, extra: bool)          // `id` is "" when it is not a string
    | OpenUrl(url: string, extra: bool)

  /** A JSON node; `fields` are its keys, `caption` is the label stripped and casefolded, `chartOk` is
      the chart check. */
  datatype Node =
    | NotObject
    | Object(kind: string, fields: set<string>, chartOk: bool, name: string,
             action: Action, caption: string, children: seq<Node>)

  datatype Error =
    | TooManyNodes | TooDeep | NotAnObject | UnknownType | MissingProp | BadChart
    | EmptyName | DuplicateName | BadAction | NeedsId | NeedsUrl | ExtraFields | AmbiguousAnswer

  const REQUIRED: map<string, set<string>> := map[
    "column" := {}, "row" := {}, "heading" := {"text"}, "text" := {"text"}, "image" := {"url"},
    "divider" := {}, "progress" := {"value"}, "key_value" := {"items"}, "list" := {"items"},
    "table" := {"columns", "rows"}, "chart" := {"kind", "series"}, "button" := {"label", "action"},
    "text_input" := {"name"}, "select" := {"name", "options"}]

  predicate Blank(s: string) {
    forall c <- s :: c == ' ' || c == '\t' || c == '\n' || c == '\r'
  }

  predicate IsInput(n: Node) { n.Object? && (n.kind == "text_input" || n.kind == "select") }

  /** What a button sends back, if it answers at all. */
  function Answer(n: Node): Option<string> {
    if n.Object? && n.kind == "button" && n.action.Submit? then Some("submit")
    else if n.Object? && n.kind == "button" && n.action.Act? then Some(n.action.id)
    else None
  }

  predicate ActionValid(a: Action) {
    match a
    case NoAction => false
    case Submit(extra) => !extra
    case Act(id, extra) => !Blank(id) && !extra
    case OpenUrl(url, extra) => !Blank(url) && !extra
  }

  function ActionError(a: Action): (e: Option<Error>)
    ensures e == None <==> ActionValid(a)
    ensures e == Some(BadAction) <==> a.NoAction?
    ensures e == Some(NeedsId) <==> a.Act? && Blank(a.id)
    ensures e == Some(NeedsUrl) <==> a.OpenUrl? && Blank(a.url)
  {
    if a.NoAction? then Some(BadAction)
    else if a.Act? && Blank(a.id) then Some(NeedsId)
    else if a.OpenUrl? && Blank(a.url) then Some(NeedsUrl)
    else if a.extra then Some(ExtraFields)
    else None
  }

  // ----------------------------------------------------- the flat predicate

  datatype Visit = At(node: Node, depth: nat)

  /** Every node of the tree with its depth, parents before children, left to right. */
  function Preorder(n: Node, depth: nat): seq<Visit>
    decreases n, 1
  {
    [At(n, depth)] + if n.Object? then PreorderAll(n.children, depth + 1) else []
  }

  function PreorderAll(ns: seq<Node>, depth: nat): seq<Visit>
    decreases ns, 0
  {
    if ns == [] then [] else Preorder(ns[0], depth) + PreorderAll(ns[1..], depth)
  }

  /** A node valid on its own. */
  predicate LocallyValid(n: Node) {
    n.Object? && n.kind in REQUIRED && REQUIRED[n.kind] <= n.fields &&
    (n.kind == "chart" ==> n.chartOk) &&
    (IsInput(n) ==> n.name != "") &&
    (n.kind == "button" ==> ActionValid(n.action))
  }

  ghost predicate DistinctNames(vs: seq<Visit>) {
    forall i, j :: 0 <= i < j < |vs| && IsInput(vs[i].node) && IsInput(vs[j].node) ==>
      vs[i].node.name != vs[j].node.name
  }

  ghost predicate AnswersAgree(vs: seq<Visit>) {
    forall i, j :: 0 <= i < j < |vs| && Answer(vs[i].node).Some? && Answer(vs[i].node) == Answer(vs[j].node) ==>
      vs[i].node.caption == vs[j].node.caption
  }

  ghost predicate ValidNodes(vs: seq<Visit>) {
    |vs| <= MAX_NODES &&
    (forall i :: 0 <= i < |vs| ==> vs[i].depth <= MAX_DEPTH && LocallyValid(vs[i].node)) &&
    DistinctNames(vs) && AnswersAgree(vs)
  }

  /** Why `v` cannot follow the accepted `seen`; the first reason that applies. */
  ghost function Explain(seen: seq<Visit>, v: Visit): Error {
    var n, a := v.node, Answer(v.node);
    if |seen| >= MAX_NODES then TooManyNodes
    else if v.depth > MAX_DEPTH then TooDeep
    else if n.NotObject? then NotAnObject
    else if n.kind !in REQUIRED then UnknownType
    else if !(REQUIRED[n.kind] <= n.fields) then MissingProp
    else if n.kind == "chart" && !n.chartOk then BadChart
    else if IsInput(n) && n.name == "" then EmptyName
    else if IsInput(n) && n.name in InputNames(seen) then DuplicateName
    else if n.kind == "button" && ActionError(n.action).Some? then ActionError(n.action).value
    else AmbiguousAnswer
  }

  /** The reason the first offending node of `vs`, from position `k` on, is rejected; None if none is. */
  ghost function Verdict(vs: seq<Visit>, k: nat): Option<Error>
    requires k <= |vs|
    decreases |vs| - k
  {
    if k == |vs| then None
    else if ValidNodes(vs[..k + 1]) then Verdict(vs, k + 1)
    else Some(Explain(vs[..k], vs[k]))
  }

  lemma {:induction false} VerdictNone(vs: seq<Visit>, k: nat)
    requires k <= |vs| && ValidNodes(vs[..k])
    ensures Verdict(vs, k) == None <==> ValidNodes(vs)
    decreases |vs| - k
  {
    assert vs[..|vs|] == vs;
    if k < |vs| {
      if ValidNodes(vs[..k + 1]) {
        VerdictNone(vs, k + 1);
      } else {
        PrefixValid(vs[..k + 1], vs, k + 1);
      }
    }
  }

  /** A rejection inside a prefix is the verdict on the whole; an accepted prefix is passed over. */
  lemma {:induction false} VerdictPrefix(a: seq<Visit>, b: seq<Visit>, k: nat)
    requires k <= |a| && ValidNodes(a[..k])
    ensures Verdict(a + b, k) == if Verdict(a, k).Some? then Verdict(a, k) else Verdict(a + b, |a|)
    decreases |a| - k
  {
    if k < |a| {
      assert (a + b)[..k] == a[..k] && (a + b)[..k + 1] == a[..k + 1];
      if ValidNodes(a[..k + 1]) { VerdictPrefix(a, b, k + 1); }
    }
  }

  // -------------------------------------------------------------- the walk

  ghost function InputNames(seen: seq<Visit>): set<string> {
    set v <- seen | IsInput(v.node) :: v.node.name
  }

  ghost function Answers(seen: seq<Visit>): set<string> {
    set v <- seen | Answer(v.node).Some? :: Answer(v.node).value
  }

  ghost predicate LabelledAs(seen: seq<Visit>, labels: map<string, string>) {
    forall v <- seen :: Answer(v.node).Some? ==>
      Answer(v.node).value in labels && labels[Answer(v.node).value] == v.node.caption
  }

  /** The state of a walk that has accepted `seen` so far. */
  ghost predicate Tracks(count: nat, names: set<string>, labels: map<string, string>, seen: seq<Visit>) {
    count == |seen| && names == InputNames(seen) && labels.Keys == Answers(seen) && LabelledAs(seen, labels)
  }

  class Validator {
    var count: nat
    var names: set<string>
    var answerLabels: map<string, string>
    ghost var seen: seq<Visit>

    ghost predicate Valid()
      reads this
    {
      Tracks(count, names, answerLabels, seen) && ValidNodes(seen)
    }

    constructor ()
      ensures Valid() && seen == []
    {
      count, names, answerLabels, seen := 0, {}, map[], [];
    }

    /** Check one node against the state, and record it when it is accepted. */
    method Check(n: Node, depth: nat) returns (err: Option<Error>)
      requires Valid()
      modifies this
      ensures err == Verdict(old(seen) + [At(n, depth)], |old(seen)|)
      ensures err == None ==> Valid() && seen == old(seen) + [At(n, depth)]
    {
      ghost var v := At(n, depth);
      AcceptIff(count, names, answerLabels, seen, v);
      OneVerdict(seen, v);
      count := count + 1;
      if count > MAX_NODES {
        return Some(TooManyNodes);
      }
      if depth > MAX_DEPTH {
        return Some(TooDeep);
      }
      if n.NotObject? {
        return Some(NotAnObject);
      }
      if n.kind !in REQUIRED {
        return Some(UnknownType);
      }
      if !(REQUIRED[n.kind] <= n.fields) {
        return Some(MissingProp);
      }
      if n.kind == "chart" && !n.chartOk {
        return Some(BadChart);
      }
      if n.kind == "text_input" || n.kind == "select" {
        if n.name == "" {
          return Some(EmptyName);
        }
        if n.name in names {
          return Some(DuplicateName);
        }
        names := names + {n.name};
      }
      if n.kind == "button" {
        var problem := ActionError(n.action);
        if problem.Some? {
          return problem;
        }
        if !n.action.OpenUrl? {
          var answer := if n.action.Submit? then "submit" else n.action.id;
          if answer in answerLabels && answerLabels[answer] != n.caption {
            return Some(AmbiguousAnswer);
          }
          answerLabels := answerLabels[answer := n.caption];
        }
      }
      TrackIt(old(count), old(names), old(answerLabels), seen, v);
      seen := seen + [v];
      err := None;
    }

    method Walk(n: Node, depth: nat) returns (err: Option<Error>)
      requires Valid()
      modifies this
      ensures err == Verdict(old(seen) + Preorder(n, depth), |old(seen)|)
      ensures err == None ==> Valid() && seen == old(seen) + Preorder(n, depth)
      decreases n, 1
    {
      ghost var before, here := seen, [At(n, depth)];
      err := Check(n, depth);
      assert (before + here)[..|before|] == before;
      if n.NotObject? {
        assert Preorder(n, depth) == here;
        return;
      }
      ghost var below := PreorderAll(n.children, depth + 1);
      assert before + Preorder(n, depth) == (before + here) + below;
      VerdictPrefix(before + here, below, |before|);
      if err == None {
        err := WalkAll(n.children, depth + 1);
      }
    }

    method WalkAll(ns: seq<Node>, depth: nat) returns (err: Option<Error>)
      requires Valid()
      modifies this
      ensures err == Verdict(old(seen) + PreorderAll(ns, depth), |old(seen)|)
      ensures err == None ==> Valid() && seen == old(seen) + PreorderAll(ns, depth)
      decreases ns, 0
    {
      ghost var all, start := seen + PreorderAll(ns, depth), |seen|;
      err := None;
      for i := 0 to |ns|
        invariant err == None && Valid()
        invariant all == seen + PreorderAll(ns[i..], depth)
        invariant start <= |seen| && Verdict(all, start) == Verdict(all, |seen|)
      {
        NextChild(seen, ns, depth, i);
        err := Walk(ns[i], depth);
        if err.Some? {
          return;
        }
      }
    }
  }

  /** Nothing is reported if and only if the nodes satisfy the flat predicate; else the first offence is. */
  method ValidateView(view: Node) returns (err: Option<Error>)
    ensures err == None <==> ValidNodes(Preorder(view, 1))
    ensures err == Verdict(Preorder(view, 1), 0)
  {
    var validator := new Validator();
    err := validator.Walk(view, 1);
    assert [] + Preorder(view, 1) == Preorder(view, 1);
    VerdictNone(Preorder(view, 1), 0);
  }

  // ----------------------------------------------------------------- proofs

  lemma PrefixValid(a: seq<Visit>, b: seq<Visit>, n: nat)
    requires n == |a| <= |b| && b[..n] == a
    ensures ValidNodes(b) ==> ValidNodes(a)
  {
    assert forall i :: 0 <= i < n ==> a[i] == b[i];
  }

  /** The state that the walk's updates lead to tracks one more node. */
  lemma TrackIt(count: nat, names: set<string>, labels: map<string, string>, seen: seq<Visit>, v: Visit)
    requires Tracks(count, names, labels, seen)
    requires var a := Answer(v.node); a.Some? && a.value in labels ==> labels[a.value] == v.node.caption
    ensures
      var a := Answer(v.node);
      Tracks(count + 1, if IsInput(v.node) then names + {v.node.name} else names,
             if a.Some? then labels[a.value := v.node.caption] else labels, seen + [v])
  {
    var a := Answer(v.node);
    assert InputNames(seen + [v]) == if IsInput(v.node) then names + {v.node.name} else names;
    assert Answers(seen + [v]) == if a.Some? then labels.Keys + {a.value} else labels.Keys;
  }

  /** Among what is left to visit, the next child decides first. */
  lemma NextChild(here: seq<Visit>, ns: seq<Node>, depth: nat, i: nat)
    requires i < |ns| && ValidNodes(here)
    ensures
      var all, first := here + PreorderAll(ns[i..], depth), here + Preorder(ns[i], depth);
      all == first + PreorderAll(ns[i + 1..], depth) &&
      Verdict(all, |here|) == if Verdict(first, |here|).Some? then Verdict(first, |here|) else Verdict(all, |first|)
  {
    var first, rest := here + Preorder(ns[i], depth), PreorderAll(ns[i + 1..], depth);
    assert ns[i..][1..] == ns[i + 1..] && ns[i..][0] == ns[i];
    assert first[..|here|] == here && here + PreorderAll(ns[i..], depth) == first + rest;
    VerdictPrefix(first, rest, |here|);
  }

  lemma OneVerdict(seen: seq<Visit>, v: Visit)
    ensures Verdict(seen + [v], |seen|) == if ValidNodes(seen + [v]) then None else Some(Explain(seen, v))
  {
    assert (seen + [v])[..|seen| + 1] == seen + [v] && (seen + [v])[..|seen|] == seen;
  }

  lemma NameIff(seen: seq<Visit>, v: Visit)
    requires DistinctNames(seen)
    ensures DistinctNames(seen + [v]) <==> (IsInput(v.node) ==> v.node.name !in InputNames(seen))
  {
    var all := seen + [v];
    if IsInput(v.node) && v.node.name in InputNames(seen) {
      var i :| 0 <= i < |seen| && IsInput(seen[i].node) && seen[i].node.name == v.node.name;
      assert all[i] == seen[i] && all[|seen|] == v;
    } else {
      forall i | 0 <= i < |seen| && IsInput(seen[i].node) && IsInput(v.node) ensures seen[i].node.name != v.node.name {
        assert seen[i] in seen;
      }
    }
  }

  lemma AnswerIff(seen: seq<Visit>, labels: map<string, string>, v: Visit)
    requires AnswersAgree(seen) && labels.Keys == Answers(seen) && LabelledAs(seen, labels)
    ensures AnswersAgree(seen + [v]) <==>
      (var a := Answer(v.node); a.Some? && a.value in labels ==> labels[a.value] == v.node.caption)
  {
    var all, a := seen + [v], Answer(v.node);
    if a.Some? && a.value in labels {
      var i :| 0 <= i < |seen| && Answer(seen[i].node) == a;
      assert all[i] == seen[i] && seen[i] in seen && all[|seen|] == v;
    }
    forall i | 0 <= i < |seen| && a.Some? && Answer(seen[i].node) == a
      ensures a.value in labels && labels[a.value] == seen[i].node.caption
    {
      assert seen[i] in seen;
    }
  }

  /** One more node keeps the flat predicate exactly when the state accepts it. */
  lemma AcceptIff(count: nat, names: set<string>, labels: map<string, string>, seen: seq<Visit>, v: Visit)
    requires Tracks(count, names, labels, seen) && ValidNodes(seen)
    ensures ValidNodes(seen + [v]) <==>
      count + 1 <= MAX_NODES && v.depth <= MAX_DEPTH && LocallyValid(v.node) &&
      (IsInput(v.node) ==> v.node.name !in names) &&
      (var a := Answer(v.node); a.Some? && a.value in labels ==> labels[a.value] == v.node.caption)
  {
    NameIff(seen, v);
    AnswerIff(seen, labels, v);
    var all := seen + [v];
    assert all[|seen|] == v && forall i :: 0 <= i < |seen| ==> all[i] == seen[i];
  }

  // ------------------------------------------------------- what is visited

  /** The node that these child positions lead to. */
  function NodeAt(n: Node, path: seq<nat>): Option<Node>
    decreases |path|
  {
    if path == [] then Some(n)
    else if n.NotObject? || path[0] >= |n.children| then None
    else NodeAt(n.children[path[0]], path[1..])
  }

  /** The visit is of the node at this path. */
  ghost predicate VisitAt(n: Node, depth: nat, path: seq<nat>, v: Visit) {
    NodeAt(n, path) == Some(v.node) && v.depth == depth + |path|
  }

  lemma {:induction false} VisitHasPath(n: Node, depth: nat, v: Visit) returns (path: seq<nat>)
    requires v in Preorder(n, depth)
    ensures VisitAt(n, depth, path, v)
    decreases n, 1
  {
    if v == At(n, depth) {
      path := [];
    } else {
      assert v in PreorderAll(n.children, depth + 1);
      var i, below := ChildHasPath(n.children, depth + 1, v);
      path := [i] + below;
      assert path[1..] == below;
    }
  }

  lemma {:induction false} ChildHasPath(ns: seq<Node>, depth: nat, v: Visit) returns (i: nat, path: seq<nat>)
    requires v in PreorderAll(ns, depth)
    ensures i < |ns| && VisitAt(ns[i], depth, path, v)
    decreases ns, 0
  {
    if v in Preorder(ns[0], depth) {
      i := 0;
      path := VisitHasPath(ns[0], depth, v);
    } else {
      i, path := ChildHasPath(ns[1..], depth, v);
      i := i + 1;
    }
  }

  lemma {:induction false} PathIsVisited(n: Node, depth: nat, path: seq<nat>, v: Visit)
    requires VisitAt(n, depth, path, v)
    ensures v in Preorder(n, depth)
    decreases n, 1
  {
    if path == [] {
      assert v == At(n, depth) && Preorder(n, depth)[0] == v;
    } else {
      ChildIsVisited(n.children, depth + 1, path[0], path[1..], v);
    }
  }

  lemma {:induction false} ChildIsVisited(ns: seq<Node>, depth: nat, i: nat, path: seq<nat>, v: Visit)
    requires i < |ns| && VisitAt(ns[i], depth, path, v)
    ensures v in PreorderAll(ns, depth)
    decreases ns, 0
  {
    if i == 0 {
      PathIsVisited(ns[0], depth, path, v);
    } else {
      assert ns[1..][i - 1] == ns[i];
      ChildIsVisited(ns[1..], depth, i - 1, path, v);
    }
  }

  /** Every node of the tree is visited, and nothing else, each at the depth of its path. */
  lemma VisitsArePaths(n: Node, depth: nat, v: Visit)
    ensures v in Preorder(n, depth) <==> exists path :: VisitAt(n, depth, path, v)
  {
    if v in Preorder(n, depth) {
      var path := VisitHasPath(n, depth, v);
    }
    forall path | VisitAt(n, depth, path, v) ensures v in Preorder(n, depth) {
      PathIsVisited(n, depth, path, v);
    }
  }
}
