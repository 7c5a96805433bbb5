/**
 * The pattern graph of an access query (QueryChecker.kt): logical
 * variables and constants as nodes, triple patterns as labelled edges, and
 * the incidence index that files every edge under the nodes it touches.
 * The SPARQL parser (Apache Jena) is not part of this model; its output is
 * the `ParsedQuery` value below, or None when the text does not parse.
 */
module QueryGraph {
  import opened Wrappers
  import opened Diagnostics

  /** The IRI Jena prints for the predicate `a` / `rdf:type`. */
  const RdfType: string := "http://www.w3.org/1999/02/22-rdf-syntax-ns#type"

  /** The relation label used for "is an instance of". */
  const TypeLabel: string := "a"

  /** A node of the pattern graph: a variable name, or the printed form of a constant. */
  datatype DLNode = DLNode(str: string, isVar: bool)

  datatype DLEdge = DLEdge(from: DLNode, relation: string, to: DLNode)

  /** A term of a triple pattern as the parser delivers it. */
  datatype Term =
    | Variable(name: string)
    | Literal(text: string)   // `text` is the printed form, such as "5"^^http://www.w3.org/2001/XMLSchema#integer
    | Iri(text: string)

  /** How the parser prints a term: `?x` for a variable, the text itself otherwise. */
  function TermText(t: Term): string
  {
    match t
    case Variable(n) => "?" + n
    case Literal(s) => s
    case Iri(s) => s
  }

  /** An entry of a path block: a plain triple, or a property path (anything else). */
  datatype PathElement = Triple(sub: Term, pred: Term, obj: Term) | PropertyPath

  /** An element of a group pattern: a block of path elements, or any other element (filter, union, ...). */
  datatype Element = PathBlock(steps: seq<PathElement>) | OtherElement

  datatype Pattern = Group(elements: seq<Element>) | OtherPattern

  /** The parts of a parsed query that the checker inspects. */
  datatype ParsedQuery = ParsedQuery(isSelect: bool, projectVars: seq<string>, pattern: Pattern)

  /** The namespace prefixes configured for the program. */
  datatype Settings = Settings(langPrefix: string, progPrefix: string, runPrefix: string, domainPrefix: string)

  /** The prefix declarations prepended to every query before parsing. */
  function SparqlPrefix(s: Settings): string
  {
    "PREFIX smol: <" + s.langPrefix + ">\n" +
    "PREFIX prog: <" + s.progPrefix + ">\n" +
    "PREFIX run: <" + s.runPrefix + ">\n" +
    "PREFIX owl: <http://www.w3.org/2002/07/owl#> \n" +
    "PREFIX rdf: <http://www.w3.org/1999/02/22-rdf-syntax-ns#> \n" +
    "PREFIX rdfs: <http://www.w3.org/2000/01/rdf-schema#> \n" +
    "PREFIX xsd: <http://www.w3.org/2001/XMLSchema#> \n" +
    "PREFIX domain: <" + s.domainPrefix + "> "
  }

  /** The full text handed to the parser. */
  function QueryText(s: Settings, query: string): string
  {
    SparqlPrefix(s) + "\n\n " + query + "\n"
  }

  /** The incidence index: for each node, the ordered set of edges filed under it. */
  type Incidence = map<DLNode, seq<DLEdge>>

  /** The edges filed under `n`, empty when there are none. */
  function EdgesAt(inc: Incidence, n: DLNode): seq<DLEdge>
  {
    if n in inc then inc[n] else []
  }

  /** No edge occurs twice in a sequence. */
  predicate Distinct(es: seq<DLEdge>)
  {
    forall i, j :: 0 <= i < j < |es| ==> es[i] != es[j]
  }

  /**
   * What every index built from triples satisfies: each edge starts at a
   * variable, is filed only under one of its own endpoints, and at most
   * once there.
   */
  ghost predicate WellFormed(inc: Incidence)
  {
    forall n | n in inc ::
      Distinct(inc[n]) &&
      forall e | e in inc[n] :: e.from.isVar && (n == e.from || n == e.to)
  }

  /** Files `e` under `n`, after the edges already there, unless it is there already. */
  function AddEdge(inc: Incidence, n: DLNode, e: DLEdge): Incidence
  {
    var filed := EdgesAt(inc, n);
    inc[n := if e in filed then filed else filed + [e]]
  }

  datatype Shape = TypeAssertion | PropertyAssertion | Unsupported

  /**
   * The two accepted triple shapes: `?s rdf:type C` with a constant `C`,
   * and `?s <p> o` with a concrete predicate and a variable or literal `o`.
   * The first test wins when both apply.
   */
  function ShapeOf(step: PathElement): Shape
  {
    if !step.Triple? then Unsupported
    else if TermText(step.pred) == RdfType && step.sub.Variable? && !step.obj.Variable? then TypeAssertion
    else if !step.pred.Variable? && step.sub.Variable? && (step.obj.Variable? || step.obj.Literal?) then PropertyAssertion
    else Unsupported
  }

  predicate Supported(step: PathElement)
  {
    ShapeOf(step) != Unsupported
  }

  /** The node of a triple's object: a variable by name, any other term by its printed form. */
  function ObjectNode(o: Term): DLNode
  {
    if o.Variable? then DLNode(o.name, true) else DLNode(TermText(o), false)
  }

  /** The edge a supported triple stands for. */
  function EdgeOf(step: PathElement): DLEdge
    requires Supported(step)
  {
    var relation := if ShapeOf(step) == TypeAssertion then TypeLabel else TermText(step.pred);
    DLEdge(DLNode(step.sub.name, true), relation, ObjectNode(step.obj))
  }

  /** The nodes a supported triple's edge is filed under: its subject, and its object when that is a variable of a property triple. */
  predicate FiledUnder(step: PathElement, n: DLNode)
    requires Supported(step)
  {
    n == EdgeOf(step).from ||
    (ShapeOf(step) == PropertyAssertion && step.obj.Variable? && n == EdgeOf(step).to)
  }

  /** Adds the edge of one supported triple to the index. */
  function FileTriple(inc: Incidence, step: PathElement): (r: Incidence)
    requires Supported(step)
    ensures forall n :: (EdgesAt(r, n) ==
      if FiledUnder(step, n) && EdgeOf(step) !in EdgesAt(inc, n) then EdgesAt(inc, n) + [EdgeOf(step)] else EdgesAt(inc, n))
  {
    var e := EdgeOf(step);
    var inc1 := AddEdge(inc, e.from, e);
    if ShapeOf(step) == PropertyAssertion && step.obj.Variable? then AddEdge(inc1, e.to, e) else inc1
  }

  /** The index after filing a sequence of supported triples, in order. */
  function FileAll(inc: Incidence, steps: seq<PathElement>): Incidence
    requires forall i :: 0 <= i < |steps| ==> Supported(steps[i])
  {
    if steps == [] then inc else FileTriple(FileAll(inc, steps[..|steps| - 1]), steps[|steps| - 1])
  }

  /** Filing the same triple a second time changes nothing. */
  lemma FileTripleIdempotent(inc: Incidence, step: PathElement)
    requires Supported(step)
    ensures FileTriple(FileTriple(inc, step), step) == FileTriple(inc, step)
  {
  }

  /** Filing a supported triple keeps the index well formed. */
  lemma FileTripleKeepsWellFormed(inc: Incidence, step: PathElement)
    requires WellFormed(inc) && Supported(step)
    ensures WellFormed(FileTriple(inc, step))
  {
    var r: Incidence := FileTriple(inc, step);
    forall n: DLNode | n in r
      ensures Distinct(r[n])
      ensures forall e: DLEdge | e in r[n] :: e.from.isVar && (n == e.from || n == e.to)
    {
      assert r[n] == EdgesAt(r, n);
      if !(n in inc) {
        assert EdgesAt(inc, n) == [];
      }
    }
  }

  /** Filing supported triples in order keeps the index well formed. */
  lemma {:induction false} FileAllKeepsWellFormed(inc: Incidence, steps: seq<PathElement>)
    requires WellFormed(inc) && forall i :: 0 <= i < |steps| ==> Supported(steps[i])
    ensures WellFormed(FileAll(inc, steps))
  {
    if steps != [] {
      FileAllKeepsWellFormed(inc, steps[..|steps| - 1]);
      FileTripleKeepsWellFormed(FileAll(inc, steps[..|steps| - 1]), steps[|steps| - 1]);
    }
  }

  /** The index of the first unsupported entry of a path block, or its length if all are supported. */
  function FirstUnsupported(steps: seq<PathElement>): (k: nat)
    ensures k <= |steps|
    ensures forall i :: 0 <= i < k ==> Supported(steps[i])
    ensures k < |steps| ==> !Supported(steps[k])
  {
    if steps == [] || !Supported(steps[0]) then 0 else 1 + FirstUnsupported(steps[1..])
  }

  /** Whether the projection names the output variable as the checker demands. */
  predicate ProjectionOk(q: ParsedQuery, varName: string)
  {
    if varName == "obj" then q.projectVars == ["obj"] else varName in q.projectVars
  }

  /** Whether the body is one group holding exactly one path block. */
  predicate SingleBlock(p: Pattern)
  {
    p.Group? && |p.elements| == 1 && p.elements[0].PathBlock?
  }

  /** The triples of the single path block of an accepted query. */
  function Steps(p: Pattern): seq<PathElement>
    requires SingleBlock(p)
  {
    p.elements[0].steps
  }

  const PercentMessage: string := "%n constants are not supported yet"
  const NonSelectMessage: string := "non-select queries are not supported yet"
  const AccessMessage: string := "access-queries must have a single extracted variable called ?obj"
  /** Logged for a query shape the builder does not support. */
  function UnsupportedMessage(): string { "This kind of query is not supported" }

  function MissingVarMessage(varName: string): string
  {
    "variable " + varName + " not found in query"
  }

  /**
   * The outcome of building the index: accepted; rejected with the
   * diagnostic that is logged and the triples filed before the rejection;
   * or a text the parser refuses, whose exception is not caught.
   */
  datatype Verdict = Accept | Reject(msg: string, severity: Severity, filed: seq<PathElement>) | Unparsable

  /** The checks of the builder, in the order it makes them; `pq` is what the parser makes of `text`. */
  function Vet(text: string, pq: Option<ParsedQuery>, varName: string): (v: Verdict)
    ensures v.Accept? ==> pq.Some? && SingleBlock(pq.value.pattern) && forall i :: 0 <= i < |Steps(pq.value.pattern)| ==> Supported(Steps(pq.value.pattern)[i])
    ensures v.Reject? ==> forall i :: 0 <= i < |v.filed| ==> Supported(v.filed[i])
  {
    if '%' in text then Reject(PercentMessage, WARNING, [])
    else if pq.None? then Unparsable
    else VetParsed(pq.value, varName)
  }

  /** The checks made on a parsed query. */
  function VetParsed(q: ParsedQuery, varName: string): Verdict
  {
    if !q.isSelect then Reject(NonSelectMessage, ERROR, [])
    else if varName == "obj" && (|q.projectVars| != 1 || q.projectVars[0] != varName) then Reject(AccessMessage, ERROR, [])
    else if varName !in q.projectVars then Reject(MissingVarMessage(varName), ERROR, [])
    else if !SingleBlock(q.pattern) then Reject(UnsupportedMessage(), WARNING, [])
    else
      var steps := Steps(q.pattern);
      var k := FirstUnsupported(steps);
      if k == |steps| then Accept else Reject(UnsupportedMessage(), WARNING, steps[..k])
  }

  /** A query is accepted exactly when it parses, passes every check and all its triples have a supported shape. */
  lemma VetAccepts(text: string, pq: Option<ParsedQuery>, varName: string)
    ensures Vet(text, pq, varName).Accept? <==>
      '%' !in text && pq.Some? && pq.value.isSelect && ProjectionOk(pq.value, varName) && SingleBlock(pq.value.pattern) &&
      forall i :: 0 <= i < |Steps(pq.value.pattern)| ==> Supported(Steps(pq.value.pattern)[i])
  {
  }

  /** The only ERROR rejections are a non-select query and a bad projection; every other rejection is a WARNING. */
  lemma VetErrors(text: string, pq: Option<ParsedQuery>, varName: string)
    ensures Vet(text, pq, varName).Reject? && Vet(text, pq, varName).severity == ERROR <==>
      '%' !in text && pq.Some? && (!pq.value.isSelect || !ProjectionOk(pq.value, varName))
  {
  }

  /** A `%` in the query or in a configured prefix rejects it with a WARNING before it is parsed. */
  lemma PercentRejects(s: Settings, query: string, pq: Option<ParsedQuery>, varName: string)
    requires '%' in query || '%' in s.langPrefix || '%' in s.progPrefix || '%' in s.runPrefix || '%' in s.domainPrefix
    ensures Vet(QueryText(s, query), pq, varName) == Reject(PercentMessage, WARNING, [])
  {
  }
}
