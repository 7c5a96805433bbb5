/**
 * The class expression a pattern graph stands for (`build` in
 * QueryChecker.kt), as functions. The walk is depth first from the output
 * variable, with ONE visited set shared by the whole walk: a node is
 * added on first visit and never removed, and the set grows across
 * siblings as well as down a path.
 */
module Synthesis {
  import opened Wrappers
  import opened QueryGraph

  /** The universal class, the expression of a variable nothing constrains. */
  const Thing: string := "owl:Thing"

  /**
   * The outcome of synthesising one node: a class expression, Kotlin's
   * `null` for a node visited before, or a crash (an exception thrown by
   * `substring`, which escapes the whole check).
   */
  datatype Synth = Expr(text: string) | Null | Crash

  /** How a nullable string is spliced into a string template: `null` prints as "null". */
  function Spliced(s: Synth): string
    requires !s.Crash?
  {
    if s.Expr? then s.text else "null"
  }

  /** Kotlin's `indexOfFirst { it == c }`: the first index holding `c`, or -1. */
  function IndexOfFirst(s: string, c: char): (i: int)
    ensures -1 <= i < |s|
    ensures i == -1 <==> c !in s
    ensures 0 <= i ==> s[i] == c && c !in s[..i]
  {
    if s == [] then -1
    else if s[0] == c then 0
    else
      var j := IndexOfFirst(s[1..], c);
      assert s[1..] == s[1..][..|s| - 1];
      if j == -1 then -1
      else
        assert s[..j + 1] == [s[0]] + s[1..][..j];
        j + 1
  }

  /** Kotlin's `removeSurrounding("\"")`: drops a leading and a trailing quote, only when both are there. */
  function Unquote(s: string): string
  {
    if |s| >= 2 && s[0] == '"' && s[|s| - 1] == '"' then s[1..|s| - 1] else s
  }

  /**
   * The text a constant node synthesises to: its printed form up to the
   * first `^`, without surrounding quotes. Without a `^` the index is -1
   * and `substring(0, -1)` throws: None.
   */
  function ConstantText(str: string): (r: Option<string>)
    ensures r.None? <==> '^' !in str
    ensures r.Some? ==> '^' !in r.value && |r.value| < |str|
    ensures r.Some? ==> exists i :: 0 <= i < |str| && str[i] == '^' && '^' !in str[..i] && r.value == Unquote(str[..i])
  {
    var i := IndexOfFirst(str, '^');
    if i < 0 then None
    else
      var u := Unquote(str[..i]);
      assert forall x :: x in u ==> x in str[..i];
      Some(u)
  }

  /** The contributions that can be joined: nothing, a class `<C>`, or a parenthesised restriction. */
  predicate Contributes(c: string)
  {
    c == "" || c[0] == '<' || c[0] == '('
  }

  /** One step of the join: the first non-empty contribution replaces owl:Thing; after that every contribution is appended. */
  function Join(ret: string, next: string): string
  {
    if ret == Thing then (if next != "" then next else ret) else ret + " AND " + next
  }

  /** The contributions of a variable's edges, joined in order from owl:Thing. */
  function JoinAll(cs: seq<string>): string
  {
    if cs == [] then Thing else Join(JoinAll(cs[..|cs| - 1]), cs[|cs| - 1])
  }

  /** " AND c" for every contribution c, in order. */
  function AndChain(cs: seq<string>): string
  {
    if cs == [] then "" else AndChain(cs[..|cs| - 1]) + " AND " + cs[|cs| - 1]
  }

  /** When no edge contributes anything, the join is owl:Thing. */
  lemma {:induction false} JoinAllNothing(cs: seq<string>)
    requires forall i :: 0 <= i < |cs| ==> cs[i] == ""
    ensures JoinAll(cs) == Thing
  {
    if cs != [] {
      JoinAllNothing(cs[..|cs| - 1]);
    }
  }

  /**
   * The joining rule: when contribution i is the first non-empty one, the
   * join is that contribution followed by " AND c" for EVERY later
   * contribution c, empty ones included.
   */
  lemma {:induction false} JoinAllFirst(cs: seq<string>, i: nat)
    requires forall k :: 0 <= k < |cs| ==> Contributes(cs[k])
    requires i < |cs| && cs[i] != "" && forall j :: 0 <= j < i ==> cs[j] == ""
    ensures JoinAll(cs) == cs[i] + AndChain(cs[i + 1..])
    decreases |cs|
  {
    var p, c := cs[..|cs| - 1], cs[|cs| - 1];
    if i == |cs| - 1 {
      JoinAllNothing(p);
      assert cs[i + 1..] == [];
    } else {
      JoinAllFirst(p, i);
      var x := JoinAll(p);
      assert x[0] == p[i][0];
      assert x != Thing by {
        assert Thing[0] == 'o';
      }
      assert cs[i + 1..][..|cs[i + 1..]| - 1] == p[i + 1..];
    }
  }

  /** The nodes that edges of the index lead to. */
  function Targets(inc: Incidence): set<DLNode>
  {
    set n, e | n in inc && e in inc[n] :: e.to
  }

  lemma EdgesLeadToTargets(inc: Incidence, n: DLNode)
    ensures forall e :: e in EdgesAt(inc, n) ==> e.to in Targets(inc)
  {
  }

  lemma SubsetCard(a: set<DLNode>, b: set<DLNode>)
    requires a <= b
    ensures |a| <= |b|
  {
    assert b == a + (b - a);
  }

  /** The termination measure drops when a walk that has marked `cur` descends into a target. */
  lemma MeasureDrops(t: set<DLNode>, cur: DLNode, x: DLNode, seen0: set<DLNode>, seen1: set<DLNode>)
    requires (x in t || x == cur) && seen0 + {cur} <= seen1 && cur !in seen0
    ensures |t + {x} - seen1| < |t + {cur} - seen0|
  {
    var a, b := t + {x} - seen1, t + {cur} - seen0;
    assert a <= b && cur in b && cur !in a;
    assert b == a + (b - a);
  }

  /** The termination measure does not grow along the walk. */
  lemma MeasureKeeps(t: set<DLNode>, cur: DLNode, x: DLNode, seen0: set<DLNode>, seen1: set<DLNode>)
    requires (x in t || x == cur) && seen0 <= seen1
    ensures |t + {x} - seen1| <= |t + {cur} - seen0|
  {
    SubsetCard(t + {x} - seen1, t + {cur} - seen0);
  }

  /**
   * The expression of node `cur` given the visited set `seen`, with the
   * visited set afterwards: null on a revisit; a constant's text; for a
   * variable, its edges' contributions joined from owl:Thing.
   */
  function SynthNode(inc: Incidence, cur: DLNode, seen: set<DLNode>): (r: (Synth, set<DLNode>))
    ensures seen <= r.1 && cur in r.1
    ensures r.0.Null? <==> cur in seen
    ensures cur in seen ==> r.1 == seen
    decreases |Targets(inc) + {cur} - seen|, 0, 0
  {
    if cur in seen then (Null, seen)
    else
      var seen1 := seen + {cur};
      if !cur.isVar then
        var t := ConstantText(cur.str);
        (if t.Some? then Expr(t.value) else Crash, seen1)
      else
        EdgesLeadToTargets(inc, cur);
        MeasureKeeps(Targets(inc), cur, cur, seen, seen1);
        assert cur !in Targets(inc) + {cur} - seen1;
        SubsetCard(Targets(inc) + {cur} - seen1, Targets(inc) + {cur} - seen - {cur});
        var cs := Contributions(inc, cur, EdgesAt(inc, cur), seen1);
        (if cs.0.Some? then Expr(JoinAll(cs.0.value)) else Crash, cs.1)
  }

  /** The contributions of the edges `es` of `cur`, in order, threading the visited set; None if one crashes. */
  function Contributions(inc: Incidence, cur: DLNode, es: seq<DLEdge>, seen: set<DLNode>): (r: (Option<seq<string>>, set<DLNode>))
    requires forall e :: e in es ==> e.to in Targets(inc)
    ensures seen <= r.1
    ensures r.0.Some? ==> |r.0.value| == |es| && forall i :: 0 <= i < |es| ==> Contributes(r.0.value[i])
    decreases |Targets(inc) + {cur} - seen|, 2, |es|
  {
    if es == [] then (Some([]), seen)
    else
      var c := Contribution(inc, cur, es[0], seen);
      if c.0.None? then (None, c.1)
      else
        MeasureKeeps(Targets(inc), cur, cur, seen, c.1);
        var rest := Contributions(inc, cur, es[1..], c.1);
        (if rest.0.Some? then Some([c.0.value] + rest.0.value) else None, rest.1)
  }

  /**
   * What one edge of `cur` contributes. The cases are tried in a fixed
   * order; both inverse cases descend into `e.to`, which is `cur` itself.
   */
  function Contribution(inc: Incidence, cur: DLNode, e: DLEdge, seen: set<DLNode>): (r: (Option<string>, set<DLNode>))
    requires e.to in Targets(inc)
    ensures seen <= r.1
    ensures r.0.Some? ==> Contributes(r.0.value)
    ensures r.0 == Some("") ==> r.1 == seen
    decreases |Targets(inc) + {cur} - seen|, 1, 0
  {
    MeasureKeeps(Targets(inc), cur, e.to, seen, seen);
    if e.relation == TypeLabel then (Some("<" + e.to.str + ">"), seen)
    else if e.from == cur && e.to !in seen && e.to.isVar then
      Wrap("(<" + e.relation + "> SOME ", SynthNode(inc, e.to, seen))
    else if e.from == cur && e.to !in seen && !e.to.isVar then
      Wrap("(<" + e.relation + "> VALUE ", SynthNode(inc, e.to, seen))
    else if e.from != cur && e.from !in seen && e.from.isVar then
      Wrap("(inverse(<" + e.relation + ">) SOME ", SynthNode(inc, e.to, seen))
    else if e.from != cur && e.from !in seen && !e.from.isVar then
      Wrap("(inverse(<" + e.relation + ">) VALUE ", SynthNode(inc, e.to, seen))
    else (Some(""), seen)
  }

  /** Splices a sub-expression into a restriction, passing a crash on. */
  function Wrap(head: string, sub: (Synth, set<DLNode>)): (r: (Option<string>, set<DLNode>))
    requires head != "" && head[0] == '('
    ensures r.1 == sub.1 && (r.0.Some? ==> r.0.value != "" && r.0.value[0] == '(')
  {
    if sub.0.Crash? then (None, sub.1) else (Some(head + Spliced(sub.0) + ")"), sub.1)
  }

  /**
   * On a well-formed index, an inverse edge of a visited node splices
   * "null": the edge ends at `cur`, so the walk descends into `cur`, which
   * is already visited. Its subject is a variable, so the constant
   * (VALUE) inverse case never fires.
   */
  lemma InverseSplicesNull(inc: Incidence, cur: DLNode, e: DLEdge, seen: set<DLNode>)
    requires WellFormed(inc) && e in EdgesAt(inc, cur) && cur in seen
    requires e.relation != TypeLabel && e.from != cur && e.from !in seen
    ensures e.to in Targets(inc)
    ensures Contribution(inc, cur, e, seen) ==
      (Some("(inverse(<" + e.relation + ">) SOME null)"), seen)
  {
    EdgesLeadToTargets(inc, cur);
    assert e.to == cur;
    assert SynthNode(inc, e.to, seen) == (Null, seen);
    var pre := "(inverse(<" + e.relation;
    assert pre + ">) SOME " + "null" + ")" == pre + ">) SOME null)";
  }

  /**
   * A variable visited for the first time synthesises to owl:Thing when no
   * edge contributes anything (in particular when it has no edges), and
   * otherwise to its first non-empty contribution followed by " AND c" for
   * every later contribution c.
   */
  lemma VariableExpression(inc: Incidence, cur: DLNode, seen: set<DLNode>)
    requires cur.isVar && cur !in seen
    ensures forall e :: e in EdgesAt(inc, cur) ==> e.to in Targets(inc)
    ensures var cs := Contributions(inc, cur, EdgesAt(inc, cur), seen + {cur}).0;
      cs.Some? ==>
        && ((forall k :: 0 <= k < |cs.value| ==> cs.value[k] == "") ==> SynthNode(inc, cur, seen).0 == Expr(Thing))
        && (forall i :: 0 <= i < |cs.value| && cs.value[i] != "" && (forall j :: 0 <= j < i ==> cs.value[j] == "") ==>
              SynthNode(inc, cur, seen).0 == Expr(cs.value[i] + AndChain(cs.value[i + 1..])))
  {
    EdgesLeadToTargets(inc, cur);
    var cs := Contributions(inc, cur, EdgesAt(inc, cur), seen + {cur}).0;
    if cs.Some? {
      if forall k :: 0 <= k < |cs.value| ==> cs.value[k] == "" {
        JoinAllNothing(cs.value);
      }
      forall i | 0 <= i < |cs.value| && cs.value[i] != "" && (forall j :: 0 <= j < i ==> cs.value[j] == "")
        ensures SynthNode(inc, cur, seen).0 == Expr(cs.value[i] + AndChain(cs.value[i + 1..]))
      {
        JoinAllFirst(cs.value, i);
      }
    }
  }
}
