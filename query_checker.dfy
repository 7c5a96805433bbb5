/**
 * The access-query checker (QueryChecker.kt). A checker is made for one
 * query statement: it builds the pattern graph of the query, synthesises
 * the class expression of the output variable, and asks a reasoner
 * whether that class is below the class the statement's List type names.
 * Diagnostics go to the checker's own log.
 *
 * The reasoner (HermiT over the ontology of the program) and the parser of
 * class expressions are not part of this model: a `Reasoner` value stands
 * for what they answer.
 */
module QueryCheck {
  import opened Wrappers
  import opened SmolTypes
  import opened Diagnostics
  import opened QueryGraph
  import opened Synthesis

  /** How a call ends: normally with a value, or with an exception the checker does not catch. */
  datatype Exit<T> = Normal(value: T) | Thrown(exception: string)

  /** Thrown by the SPARQL parser on a text it refuses. */
  const ParseException: string := "QueryParseException"
  /** Thrown by `substring(0, -1)` on a constant without a `^`. */
  const IndexException: string := "StringIndexOutOfBoundsException"
  /** Thrown by `first()` on an empty parameter list, */
  const ElementException: string := "NoSuchElementException"
  /** with this message. */
  const EmptyListMessage: string := "List is empty."

  const TreeFailureMessage: string := "Building the tree for the query failed"
  const ShapeMessage: string := "Access statements are only allowed to target List type variables with concrete parameter type"
  const TargetMessage: string := "Failed to extract OWL expression for target type"
  const QueryExpressionMessage: string := "Failed to extract OWL expression for query"

  function ExceptionMessage(message: string): string
  {
    "Failed to typecheck query (Exception: " + message + ") "
  }

  function MismatchMessage(query: string, declared: Type, shown: string): string
  {
    "Could not check query " + query + ": specified type is " + TypeText(declared) + ", but inferred supertypes are " + shown
  }

  /** What the reasoner answers for a class expression: its superclasses (as IRIs, and as printed), or an exception message. */
  datatype Classification = SuperClasses(iris: set<string>, shown: string) | ClassifyThrows(message: string)

  /**
   * The reasoner as seen by the checker: the message of an exception
   * thrown while loading the ontology or creating the reasoner (None when
   * both succeed); whether a formula parses as a class expression after
   * the known prefixes are expanded; and how it classifies one that does.
   */
  datatype Reasoner = Reasoner(setupFailure: Option<string>, parses: string -> bool, classify: string -> Classification)

  /** The class an access statement may target: a named class, or a type of the wrong shape, or a List without parameters. */
  datatype Target = Named(name: string) | WrongShape | NoParameter

  /** The target class of a declared type: the parameter of `List<C>` when `C` is a plain class type. */
  function TargetClass(t: Type): (r: Target)
    ensures r.Named? <==> t.ComposedType? && t.primary == BaseType("List") && |t.params| > 0 && t.params[0].BaseType?
    ensures r.Named? ==> r.name == t.params[0].name
    ensures r == NoParameter <==> t.ComposedType? && t.primary == BaseType("List") && t.params == []
  {
    if !t.ComposedType? || t.primary != BaseType("List") then WrongShape
    else if t.params == [] then NoParameter
    else if !t.params[0].BaseType? then WrongShape
    else Named(t.params[0].name)
  }

  /** The verdict of the reasoner step and the ERROR messages it logs, in order. */
  datatype CheckResult = CheckResult(pass: bool, logged: seq<string>)

  /** What `check` decides and logs for a synthesised formula. */
  function CheckOutcome(r: Reasoner, declared: Type, formula: string, progPrefix: string, query: string): CheckResult
  {
    if r.setupFailure.Some? then CheckResult(false, [ExceptionMessage(r.setupFailure.value)])
    else match TargetClass(declared)
      case WrongShape => CheckResult(false, [ShapeMessage, TargetMessage])
      case NoParameter => CheckResult(false, [ExceptionMessage(EmptyListMessage)])
      case Named(c) =>
        if !r.parses(formula) then CheckResult(false, [QueryExpressionMessage])
        else match r.classify(formula)
          case ClassifyThrows(m) => CheckResult(false, [ExceptionMessage(m)])
          case SuperClasses(iris, shown) =>
            if progPrefix + c in iris then CheckResult(true, [])
            else CheckResult(false, [MismatchMessage(query, declared, shown)])
  }

  /**
   * A check passes exactly when the reasoner is set up, the target is a
   * plain class, the formula parses, and the class's IRI is among the
   * formula's superclasses; it logs something exactly when it fails.
   */
  lemma CheckPassesExactly(r: Reasoner, declared: Type, formula: string, progPrefix: string, query: string)
    ensures var o := CheckOutcome(r, declared, formula, progPrefix, query);
      && (o.pass <==>
            r.setupFailure.None? && TargetClass(declared).Named? && r.parses(formula) &&
            r.classify(formula).SuperClasses? && progPrefix + TargetClass(declared).name in r.classify(formula).iris)
      && (o.pass <==> o.logged == [])
  {
  }

  /** The log entries for ERROR messages reported at `line`. */
  function ErrorEntries(msgs: seq<string>, line: int): (r: seq<TypeError>)
    ensures |r| == |msgs|
    ensures forall i :: 0 <= i < |msgs| ==> r[i] == TypeError(msgs[i], line, ERROR)
  {
    if msgs == [] then [] else [TypeError(msgs[0], line, ERROR)] + ErrorEntries(msgs[1..], line)
  }

  /** Once a failed check has logged its messages, the log no longer passes. */
  lemma FailedCheckFailsReport(log: seq<TypeError>, msgs: seq<string>, line: int)
    requires msgs != []
    ensures !NoErrors(log + ErrorEntries(msgs, line))
  {
    assert (log + ErrorEntries(msgs, line))[|log|].severity == ERROR;
  }

  /** The formula of the output variable: the synthesis from it with nothing visited. */
  function FormulaOf(inc: Incidence, varName: string): Synth
  {
    SynthNode(inc, DLNode(varName, true), {}).0
  }

  /** Prepends the contributions `done` to the outcome of the remaining ones. */
  ghost function Prefixed(done: seq<string>, rest: (Option<seq<string>>, set<DLNode>)): (Option<seq<string>>, set<DLNode>)
  {
    (if rest.0.Some? then Some(done + rest.0.value) else None, rest.1)
  }

  lemma PrefixedStep(done: seq<string>, c: string, rest: (Option<seq<string>>, set<DLNode>))
    ensures Prefixed(done, (if rest.0.Some? then Some([c] + rest.0.value) else None, rest.1)) == Prefixed(done + [c], rest)
  {
    if rest.0.Some? {
      assert done + ([c] + rest.0.value) == done + [c] + rest.0.value;
    }
  }

  class QueryChecker {
    const settings: Settings
    /** The prefix declarations, fixed when the checker is made. */
    const sparqlPrefix: string
    /** The query text as written in the statement. */
    const query: string
    /** What the SPARQL parser makes of the query with the prefixes prepended; None when it refuses it. */
    const parsed: Option<ParsedQuery>
    /** The declared type of the variable the statement assigns. */
    const declared: Type
    /** The start line of the statement. */
    const ctxLine: int
    /** The output variable of the query. */
    const varName: string
    /** The diagnostics log; in the source the checker is itself a logger. */
    const logger: TypeErrorLogger

    /** The pattern graph, filled by `BuildTree`. */
    var incidence: Incidence
    /** The synthesised class expression, set by `BuildFormula`. */
    var formula: string

    constructor (settings: Settings, query: string, parsed: Option<ParsedQuery>, declared: Type, ctxLine: int,
                 varName: string, stdLibLineCount: nat)
      ensures this.settings == settings && sparqlPrefix == SparqlPrefix(settings)
      ensures this.query == query && this.parsed == parsed
      ensures this.declared == declared && this.ctxLine == ctxLine && this.varName == varName
      ensures fresh(logger) && logger.errors == [] && logger.stdOffset == stdLibLineCount + 2
      ensures incidence == map[] && formula == ""
    {
      this.settings := settings;
      sparqlPrefix := SparqlPrefix(settings);
      this.query := query;
      this.parsed := parsed;
      this.declared := declared;
      this.ctxLine := ctxLine;
      this.varName := varName;
      logger := new TypeErrorLogger(stdLibLineCount);
      incidence := map[];
      formula := "";
    }

    /** The entry a message about this statement is logged as. */
    function Entry(msg: string, severity: Severity): TypeError
    {
      TypeError(msg, ctxLine - logger.stdOffset, severity)
    }

    /** What the index builder decides for this checker's query. */
    function Verdict(): Verdict
    {
      Vet(sparqlPrefix + "\n\n " + query + "\n", parsed, varName)
    }

    /** Files `e` under `n` in the index: the edge set of `n`, created empty if missing, gets `e` added. */
    method FileEdge(n: DLNode, e: DLEdge)
      modifies this`incidence
      ensures incidence == AddEdge(old(incidence), n, e)
    {
      var filed := EdgesAt(incidence, n);
      if e !in filed {
        filed := filed + [e];
      }
      incidence := incidence[n := filed];
    }

    /**
     * Files the edge of one entry of the path block when it has a supported
     * shape; an unsupported entry changes nothing.
     */
    method AddTriple(f: PathElement) returns (added: bool)
      modifies this`incidence
      ensures added == Supported(f)
      ensures added ==> incidence == FileTriple(old(incidence), f)
      ensures !added ==> incidence == old(incidence)
    {
      if !f.Triple? {
        return false;
      }
      if TermText(f.pred) == RdfType && f.sub.Variable? && !f.obj.Variable? {
        var subNode := DLNode(f.sub.name, true);
        var objNode := DLNode(TermText(f.obj), false);
        var edge := DLEdge(subNode, TypeLabel, objNode);
        FileEdge(subNode, edge);
      } else if !f.pred.Variable? && f.sub.Variable? && (f.obj.Variable? || f.obj.Literal?) {
        var subNode := DLNode(f.sub.name, true);
        var objNode := if f.obj.Variable? then DLNode(f.obj.name, true) else DLNode(TermText(f.obj), false);
        var edge := DLEdge(subNode, TermText(f.pred), objNode);
        FileEdge(subNode, edge);
        if f.obj.Variable? {
          FileEdge(objNode, edge);
        }
      } else {
        return false;
      }
      return true;
    }

    /**
     * Checks the query's form and files its triples into the index, in
     * order. A rejection logs one diagnostic and keeps what was filed
     * before it; an unparsable text throws.
     */
    method BuildTree() returns (r: Exit<bool>)
      modifies this`incidence, logger
      ensures Verdict().Accept? ==>
        r == Normal(true) && incidence == FileAll(old(incidence), Steps(parsed.value.pattern)) && logger.errors == old(logger.errors)
      ensures Verdict().Reject? ==>
        r == Normal(false) && incidence == FileAll(old(incidence), Verdict().filed) &&
        logger.errors == old(logger.errors) + [Entry(Verdict().msg, Verdict().severity)]
      ensures Verdict().Unparsable? ==>
        r == Thrown(ParseException) && incidence == old(incidence) && logger.errors == old(logger.errors)
    {
      ghost var v := Verdict();
      var text := sparqlPrefix + "\n\n " + query + "\n";
      if '%' in text {
        logger.Log(PercentMessage, Some(ctxLine), WARNING);
        return Normal(false);
      }
      if parsed.None? {
        return Thrown(ParseException);
      }
      var q := parsed.value;
      assert v == VetParsed(q, varName);
      if !q.isSelect {
        logger.Log(NonSelectMessage, Some(ctxLine));
        return Normal(false);
      }
      if varName == "obj" && (|q.projectVars| != 1 || q.projectVars[0] != varName) {
        logger.Log(AccessMessage, Some(ctxLine));
        return Normal(false);
      } else if varName !in q.projectVars {
        assert v == Reject(MissingVarMessage(varName), ERROR, []);
        logger.Log(MissingVarMessage(varName), Some(ctxLine));
        return Normal(false);
      }
      if !q.pattern.Group? || |q.pattern.elements| != 1 {
        logger.Log(UnsupportedMessage(), Some(ctxLine), WARNING);
        return Normal(false);
      }
      var elem := q.pattern.elements[0];
      if !elem.PathBlock? {
        logger.Log(UnsupportedMessage(), Some(ctxLine), WARNING);
        return Normal(false);
      }
      ghost var k := FirstUnsupported(elem.steps);
      assert v == if k == |elem.steps| then Accept else Reject(UnsupportedMessage(), WARNING, elem.steps[..k]);
      var filedAll := FileBlock(elem.steps);
      assert filedAll ==> elem.steps[..k] == elem.steps;
      return Normal(filedAll);
    }

    /**
     * The loop of the builder: files the entries of a path block in
     * order, and stops at the first unsupported one with a WARNING.
     */
    method FileBlock(steps: seq<PathElement>) returns (ok: bool)
      modifies this`incidence, logger
      ensures ok <==> FirstUnsupported(steps) == |steps|
      ensures incidence == FileAll(old(incidence), steps[..FirstUnsupported(steps)])
      ensures logger.errors == old(logger.errors) + if ok then [] else [Entry(UnsupportedMessage(), WARNING)]
    {
      var stop := FileWhileSupported(steps);
      ok := stop == |steps|;
      if !ok {
        logger.Log(UnsupportedMessage(), Some(ctxLine), WARNING);
      }
    }

    /**
     * The loop of `FileBlock`: files the entries in order and stops at the
     * first one whose shape is unsupported, returning its position (the
     * length of `steps` when every entry was filed).
     */
    method FileWhileSupported(steps: seq<PathElement>) returns (stop: nat)
      modifies this`incidence
      ensures stop == FirstUnsupported(steps)
      ensures incidence == FileAll(old(incidence), steps[..stop])
    {
      ghost var k := FirstUnsupported(steps);
      for i := 0 to |steps|
        invariant i <= k
        invariant incidence == FileAll(old(incidence), steps[..i])
      {
        var added := AddTriple(steps[i]);
        if !added {
          assert i == k;
          return i;
        }
        assert i < k;
        assert steps[..i + 1][..i] == steps[..i];
      }
      assert k == |steps|;
      return |steps|;
    }

    /**
     * The class expression of `current`, walking the index depth first and
     * marking nodes in the one visited set `seenVars`, which is returned
     * grown; the walk is the one `SynthNode` defines.
     */
    method Build(current: DLNode, seenVars: set<DLNode>) returns (r: Synth, seen: set<DLNode>)
      ensures (r, seen) == SynthNode(incidence, current, seenVars)
      decreases |Targets(incidence) + {current} - seenVars|, 0
    {
      if current in seenVars {
        return Null, seenVars;
      }
      seen := seenVars + {current};
      if !current.isVar {
        var i := IndexOfFirst(current.str, '^');
        if i < 0 {
          return Crash, seen;
        }
        return Expr(Unquote(current.str[..i])), seen;
      }
      var next := EdgesAt(incidence, current);
      EdgesLeadToTargets(incidence, current);
      MeasureDrops(Targets(incidence), current, current, seenVars, seen);
      r, seen := JoinEdges(current, next, seen);
    }

    /**
     * The loop of `build` over the edges `next` of `current`: each edge's
     * contribution is joined onto owl:Thing with " AND ", and a crash in
     * any of them ends the walk; the result is what `Contributions` and
     * `JoinAll` define.
     */
    method JoinEdges(current: DLNode, next: seq<DLEdge>, seen0: set<DLNode>) returns (r: Synth, seen: set<DLNode>)
      requires forall e :: e in next ==> e.to in Targets(incidence)
      ensures var cs := Contributions(incidence, current, next, seen0);
        (r, seen) == (if cs.0.Some? then Expr(JoinAll(cs.0.value)) else Crash, cs.1)
      decreases |Targets(incidence) + {current} - seen0|, 2
    {
      seen := seen0;
      ghost var done: seq<string> := [];
      var ret := Thing;
      assert next[0..] == next;
      ghost var all := Contributions(incidence, current, next, seen0);
      if all.0.Some? {
        assert done + all.0.value == all.0.value;
      }
      for k := 0 to |next|
        invariant seen0 <= seen
        invariant all == Prefixed(done, Contributions(incidence, current, next[k..], seen))
        invariant ret == JoinAll(done)
      {
        assert next[k..][1..] == next[k + 1..];
        MeasureKeeps(Targets(incidence), current, current, seen0, seen);
        var c, seen1 := EdgeContribution(current, next[k], seen);
        if c.None? {
          return Crash, seen1;
        }
        var nextString := c.value;
        seen := seen1;
        PrefixedStep(done, nextString, Contributions(incidence, current, next[k + 1..], seen));
        assert (done + [nextString])[..|done|] == done;
        ret := if ret == Thing then (if nextString != "" then nextString else ret) else ret + " AND " + nextString;
        done := done + [nextString];
      }
      assert next[|next|..] == [] && done + [] == done;
      return Expr(ret), seen;
    }

    /**
     * What the edge `n` of `current` contributes inside the loop of
     * `build`, recursing into `n.to` for a restriction; the visited set is
     * threaded through as `Contribution` defines.
     */
    method EdgeContribution(current: DLNode, n: DLEdge, seen: set<DLNode>) returns (c: Option<string>, seen1: set<DLNode>)
      requires n.to in Targets(incidence)
      ensures (c, seen1) == Contribution(incidence, current, n, seen)
      decreases |Targets(incidence) + {current} - seen|, 1
    {
      MeasureKeeps(Targets(incidence), current, n.to, seen, seen);
      var head := "";
      if n.relation == TypeLabel {
        return Some("<" + n.to.str + ">"), seen;
      } else if n.from == current && n.to !in seen && n.to.isVar {
        head := "(<" + n.relation + "> SOME ";
      } else if n.from == current && n.to !in seen && !n.to.isVar {
        head := "(<" + n.relation + "> VALUE ";
      } else if n.from != current && n.from !in seen && n.from.isVar {
        head := "(inverse(<" + n.relation + ">) SOME ";
      } else if n.from != current && n.from !in seen && !n.from.isVar {
        head := "(inverse(<" + n.relation + ">) VALUE ";
      } else {
        return Some(""), seen;
      }
      var sub, s := Build(n.to, seen);
      if sub.Crash? {
        return None, s;
      }
      return Some(head + Spliced(sub) + ")"), s;
    }

    /**
     * Synthesises the formula of the output variable into `formula`. The
     * walk starts with nothing visited, so it never yields null: it either
     * succeeds or throws.
     */
    method BuildFormula() returns (r: Exit<bool>)
      modifies this`formula
      ensures FormulaOf(incidence, varName).Crash? ==> r == Thrown(IndexException) && formula == old(formula)
      ensures !FormulaOf(incidence, varName).Crash? ==>
        r == Normal(true) && FormulaOf(incidence, varName).Expr? && formula == FormulaOf(incidence, varName).text
    {
      var ret, _ := Build(DLNode(varName, true), {});
      if ret.Crash? {
        return Thrown(IndexException);
      }
      if !ret.Null? {
        formula := ret.text;
      }
      return Normal(!ret.Null?);
    }

    /**
     * The class the declared type targets; a type of the wrong shape logs
     * an ERROR and gives None, and a List without parameters throws.
     */
    method ExtractTypeClass() returns (r: Exit<Option<string>>)
      modifies logger
      ensures TargetClass(declared).Named? ==> r == Normal(Some(TargetClass(declared).name)) && logger.errors == old(logger.errors)
      ensures TargetClass(declared) == WrongShape ==>
        r == Normal(None) && logger.errors == old(logger.errors) + [Entry(ShapeMessage, ERROR)]
      ensures TargetClass(declared) == NoParameter ==> r == Thrown(ElementException) && logger.errors == old(logger.errors)
    {
      if !declared.ComposedType? || declared.primary != BaseType("List") {
        logger.Log(ShapeMessage, Some(ctxLine));
        return Normal(None);
      }
      if declared.params == [] {
        return Thrown(ElementException);
      }
      var inner := declared.params[0];
      if !inner.BaseType? {
        logger.Log(ShapeMessage, Some(ctxLine));
        return Normal(None);
      }
      return Normal(Some(inner.name));
    }

    /**
     * Asks the reasoner whether the target class is a superclass of the
     * formula; every way of failing logs ERROR entries, and exceptions are
     * caught and logged.
     */
    method Check(reasoner: Reasoner) returns (ok: bool)
      modifies logger
      ensures ok == CheckOutcome(reasoner, declared, formula, settings.progPrefix, query).pass
      ensures logger.errors ==
        old(logger.errors) + ErrorEntries(CheckOutcome(reasoner, declared, formula, settings.progPrefix, query).logged, ctxLine - logger.stdOffset)
    {
      if reasoner.setupFailure.Some? {
        logger.Log(ExceptionMessage(reasoner.setupFailure.value), Some(ctxLine));
        return false;
      }
      var first := ExtractTypeClass();
      if first.Thrown? {
        logger.Log(ExceptionMessage(EmptyListMessage), Some(ctxLine));
        return false;
      }
      var tString: string;
      if first.value.Some? {
        // the source evaluates the extraction a second time for its value
        var again := ExtractTypeClass();
        tString := again.value.value;
      } else {
        logger.Log(TargetMessage, Some(ctxLine));
        return false;
      }
      if !reasoner.parses(formula) {
        logger.Log(QueryExpressionMessage, Some(ctxLine));
        return false;
      }
      match reasoner.classify(formula)
      case ClassifyThrows(m) =>
        logger.Log(ExceptionMessage(m), Some(ctxLine));
        return false;
      case SuperClasses(iris, shown) =>
        ok := settings.progPrefix + tString in iris;
        if !ok {
          logger.Log(MismatchMessage(query, declared, shown), Some(ctxLine));
        }
    }

    /**
     * Type-checks the query (`type` in the source): builds the index,
     * synthesises the formula and checks it. A rejected query logs a WARNING after the builder's own
     * diagnostic and yields false.
     */
    method TypeCheck(reasoner: Reasoner) returns (result: Exit<bool>)
      modifies this`incidence, this`formula, logger
      ensures Verdict().Unparsable? ==>
        result == Thrown(ParseException) && unchanged(this) && logger.errors == old(logger.errors)
      ensures Verdict().Reject? ==>
        && result == Normal(false) && incidence == FileAll(old(incidence), Verdict().filed) && formula == old(formula)
        && logger.errors == old(logger.errors) + [Entry(Verdict().msg, Verdict().severity), Entry(TreeFailureMessage, WARNING)]
      ensures Verdict().Accept? ==>
        && incidence == FileAll(old(incidence), Steps(parsed.value.pattern))
        && (FormulaOf(incidence, varName).Crash? ==>
              result == Thrown(IndexException) && formula == old(formula) && logger.errors == old(logger.errors))
        && (FormulaOf(incidence, varName).Expr? ==>
              && formula == FormulaOf(incidence, varName).text
              && result == Normal(CheckOutcome(reasoner, declared, formula, settings.progPrefix, query).pass)
              && logger.errors == old(logger.errors) +
                   ErrorEntries(CheckOutcome(reasoner, declared, formula, settings.progPrefix, query).logged, ctxLine - logger.stdOffset))
      ensures result == Normal(true) ==> logger.errors == old(logger.errors)
      ensures result == Normal(false) && !(Verdict().Reject? && Verdict().severity == WARNING) ==> !NoErrors(logger.errors)
      ensures Verdict().Reject? && Verdict().severity == WARNING ==> (NoErrors(logger.errors) <==> NoErrors(old(logger.errors)))
    {
      ghost var v := Verdict();
      var successBuild := BuildTree();
      if successBuild.Thrown? {
        assert v.Unparsable?;
        return Thrown(successBuild.exception);
      }
      if !successBuild.value {
        assert v.Reject?;
        ghost var before := logger.errors;
        logger.Log(TreeFailureMessage, Some(ctxLine), WARNING);
        AppendVerdict(before, Entry(TreeFailureMessage, WARNING));
        AppendVerdict(old(logger.errors), Entry(v.msg, v.severity));
        return Normal(false);
      }
      assert v.Accept?;
      result := FormulateAndCheck(reasoner);
    }

    /**
     * The second half of `type`, once the tree is built: the formula is
     * synthesised from the variable's node and handed to `check`.
     */
    method FormulateAndCheck(reasoner: Reasoner) returns (result: Exit<bool>)
      modifies this`formula, logger
      ensures FormulaOf(incidence, varName).Crash? ==>
        result == Thrown(IndexException) && formula == old(formula) && logger.errors == old(logger.errors)
      ensures FormulaOf(incidence, varName).Expr? ==>
        && formula == FormulaOf(incidence, varName).text
        && result == Normal(CheckOutcome(reasoner, declared, formula, settings.progPrefix, query).pass)
        && logger.errors == old(logger.errors) +
             ErrorEntries(CheckOutcome(reasoner, declared, formula, settings.progPrefix, query).logged, ctxLine - logger.stdOffset)
      ensures result == Normal(true) ==> logger.errors == old(logger.errors)
      ensures result == Normal(false) ==> !NoErrors(logger.errors)
    {
      var successQuery := BuildFormula();
      if successQuery.Thrown? {
        return Thrown(successQuery.exception);
      }
      if !successQuery.value {
        // unreachable: a walk that starts with nothing visited never yields null
        assert false;
      }
      var ok := Check(reasoner);
      ghost var o := CheckOutcome(reasoner, declared, formula, settings.progPrefix, query);
      CheckPassesExactly(reasoner, declared, formula, settings.progPrefix, query);
      if !ok {
        FailedCheckFailsReport(old(logger.errors), o.logged, ctxLine - logger.stdOffset);
      } else {
        assert ErrorEntries(o.logged, ctxLine - logger.stdOffset) == [];
      }
      return Normal(ok);
    }
  }

  /**
   * A query statement whose text holds a `%` is refused by the checker
   * with WARNINGs only: the statement does not type-check, but the
   * report of a fresh checker still passes.
   */
  method PercentQueryOnlyWarns(settings: Settings, query: string, parsed: Option<ParsedQuery>, declared: Type, ctxLine: int,
                               varName: string, reasoner: Reasoner) returns (typed: Exit<bool>, passes: bool)
    requires '%' in query
    ensures typed == Normal(false) && passes
  {
    var checker := new QueryChecker(settings, query, parsed, declared, ctxLine, varName, 0);
    PercentRejects(settings, query, parsed, varName);
    typed := checker.TypeCheck(reasoner);
    passes := checker.logger.Report(false);
  }
}
